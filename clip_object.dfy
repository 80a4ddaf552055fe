/** A piece of clipboard text as it travels between the capture side and the
    server. It holds one string, never changed after construction. */
module ClipObjects {
  import opened Wrappers
  import opened PyRepr

  datatype ClipObject = ClipObject(content: string) {

    /** `get_content()`: the string the object was built from. */
    function GetContent(): (s: string)
      ensures this == ClipObject(s)
    {
      content
    }

    /** `to_json()`: a dict with the single key `"content"`, mapped to the content. */
    function ToJson(): (d: PyDict)
      ensures Keys(d) == ["content"]
      ensures Lookup(d, "content") == Some(PyStr(GetContent()))
    {
      [("content", PyStr(content))]
    }
  }

  /** Rebuilds an object from its dict view: the `"content"` entry, when it is a string. */
  function FromJson(d: PyDict): (r: Option<ClipObject>)
    ensures r.Some? <==> Lookup(d, "content").Some? && Lookup(d, "content").value.PyStr?
  {
    match Lookup(d, "content")
    case Some(PyStr(s)) => Some(ClipObject(s))
    case _ => None
  }

  /** The dict view loses nothing: the object can be rebuilt from it. */
  lemma JsonRoundTrip(o: ClipObject)
    ensures FromJson(o.ToJson()) == Some(o)
  {
  }

  /** Two objects with the same dict view are the same object. */
  lemma ToJsonInjective(o1: ClipObject, o2: ClipObject)
    requires o1.ToJson() == o2.ToJson()
    ensures o1 == o2
  {
    JsonRoundTrip(o1);
    JsonRoundTrip(o2);
  }
}
