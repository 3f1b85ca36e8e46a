/**
 * A `logging.LogRecord` as `JsonFormatter.format` sees it
 * (app/opentelemetry_wrapper/instrument_logging.py, lines 102-178): an object whose
 * attributes live in `record.__dict__`, which `format` reads and writes.
 */
module LogRecords {
  import opened Wrappers
  import opened Values

  predicate HasAttr(d: Pairs, name: string)
  {
    FindKey(d, Str(name)).Some?
  }

  /**
   * A record's `__dict__`: attribute names (strings), each at most once, including the
   * attributes the LogRecord constructor always sets and `format` reads directly.
   */
  predicate RecordDict(d: Pairs)
  {
    DistinctKeys(d) && (forall i :: 0 <= i < |d| ==> d[i].0.Str?) &&
    HasAttr(d, "msg") && HasAttr(d, "args") && HasAttr(d, "exc_info") && HasAttr(d, "exc_text")
  }

  /** `getattr(record, name, None)` for an attribute stored on the instance. */
  function Attr(d: Pairs, name: string): Value
  {
    match Get(d, Str(name))
    case Some(v) => v
    case None => Null
  }

  /**
   * `record.name = v` keeps a record dict a record dict; afterwards `name` holds `v` and
   * every other attribute holds what it held.
   */
  lemma SetAttrFacts(d: Pairs, name: string, v: Value)
    requires RecordDict(d)
    ensures RecordDict(Put(d, Str(name), v))
    ensures Attr(Put(d, Str(name), v), name) == v
    ensures forall other :: other != name ==> Attr(Put(d, Str(name), v), other) == Attr(d, other)
  {
    var r := Put(d, Str(name), v);
    PutFacts(d, Str(name), v);
    forall other | other != name ensures Get(r, Str(other)) == Get(d, Str(other)) {
      PutOther(d, Str(name), v, Str(other));
    }
    forall i | 0 <= i < |r| ensures r[i].0.Str? {
      if i < |d| {
        assert r[i].0 == d[i].0;
      }
    }
    assert Get(r, Str("msg")).Some? && Get(r, Str("args")).Some?;
    assert Get(r, Str("exc_info")).Some? && Get(r, Str("exc_text")).Some?;
  }

  class LogRecord {
    /** `record.__dict__`, in insertion order. */
    var attrs: Pairs

    predicate Valid()
      reads this
    {
      RecordDict(attrs)
    }

    /** A record as the logging library builds it, with the given attribute dict. */
    constructor (attrs0: Pairs)
      requires RecordDict(attrs0)
      ensures attrs == attrs0 && Valid()
    {
      attrs := attrs0;
    }

    /** `getattr(record, name, None)`. */
    function Attribute(name: string): Value
      reads this
    {
      Attr(attrs, name)
    }

    /** `record.name = v`. */
    method SetAttr(name: string, v: Value)
      requires Valid()
      modifies this
      ensures Valid()
      ensures attrs == Put(old(attrs), Str(name), v)
      ensures Attribute(name) == v
      ensures forall other :: other != name ==> Attribute(other) == old(Attribute(other))
    {
      SetAttrFacts(attrs, name, v);
      attrs := Put(attrs, Str(name), v);
    }
  }
}
