/**
  Errors tagged with key/value pairs (package fur), together with the part of Go's
  error model the logger relies on: messages, `xerrors.Unwrap` and the unwrap chain.
 */
module Fur {
  import opened Wrappers

  /** A tag value (an `interface{}`), by kind; `Other` stands for any other value,
      given by its `%v` rendering. */
  datatype Value =
    | Str(s: string)
    | Int(i: int)
    | Bool(b: bool)
    | Nil
    | Other(text: string)

  /** One key/value pair of a tag map. */
  type Pair = (string, Value)

  /** No key occurs twice: what makes a sequence of pairs a map. */
  ghost predicate DistinctKeys(ps: seq<Pair>) {
    forall i, j :: 0 <= i < j < |ps| ==> ps[i].0 != ps[j].0
  }

  /** The value the last pair with key `k` gives, if any pair has that key. */
  function LastValue(ps: seq<Pair>, k: string): Option<Value>
    decreases |ps|
  {
    if ps == [] then None
    else if ps[|ps| - 1].0 == k then Some(ps[|ps| - 1].1)
    else LastValue(ps[..|ps| - 1], k)
  }

  /** The map `o` becomes when `o[k] = v` is executed for every pair of `ps`, in order. */
  function Assign(o: map<string, Value>, ps: seq<Pair>): map<string, Value>
    decreases |ps|
  {
    if ps == [] then o
    else Assign(o, ps[..|ps| - 1])[ps[|ps| - 1].0 := ps[|ps| - 1].1]
  }

  lemma AssignSnoc(o: map<string, Value>, ps: seq<Pair>, p: Pair)
    ensures Assign(o, ps + [p]) == Assign(o, ps)[p.0 := p.1]
  {
    assert (ps + [p])[..|ps|] == ps;
  }

  /** Assigning pairs defines each key by the last pair that has it; other keys keep their value. */
  lemma {:induction false} AssignLookup(o: map<string, Value>, ps: seq<Pair>, k: string)
    ensures k in Assign(o, ps) <==> k in o || LastValue(ps, k).Some?
    ensures LastValue(ps, k).Some? ==> Assign(o, ps)[k] == LastValue(ps, k).value
    ensures LastValue(ps, k).None? && k in o ==> Assign(o, ps)[k] == o[k]
    decreases |ps|
  {
    if ps != [] {
      AssignLookup(o, ps[..|ps| - 1], k);
    }
  }

  /** Assigning `a` and then `b` is assigning `a + b`. */
  lemma {:induction false} AssignConcat(o: map<string, Value>, a: seq<Pair>, b: seq<Pair>)
    ensures Assign(o, a + b) == Assign(Assign(o, a), b)
    decreases |b|
  {
    if b == [] {
      assert a + b == a;
    } else {
      assert (a + b)[..|a + b| - 1] == a + b[..|b| - 1];
      AssignConcat(o, a, b[..|b| - 1]);
    }
  }

  /** An inner run of pairs overwrites an outer one on every key it holds. */
  lemma InnerOverwritesOuter(o: map<string, Value>, outer: seq<Pair>, inner: seq<Pair>, k: string)
    requires LastValue(inner, k).Some?
    ensures k in Assign(o, outer + inner)
    ensures Assign(o, outer + inner)[k] == LastValue(inner, k).value
  {
    AssignConcat(o, outer, inner);
    AssignLookup(Assign(o, outer), inner, k);
  }

  /** Rewriting the value of an existing key in place updates the assigned map at that key only. */
  lemma {:induction false} AssignUpdateAt(o: map<string, Value>, ps: seq<Pair>, i: nat, v: Value)
    requires i < |ps| && DistinctKeys(ps)
    ensures Assign(o, ps[i := (ps[i].0, v)]) == Assign(o, ps)[ps[i].0 := v]
    decreases |ps|
  {
    var n := |ps| - 1;
    var qs := ps[i := (ps[i].0, v)];
    assert qs[..n] == if i < n then ps[..n][i := (ps[i].0, v)] else ps[..n];
    if i < n {
      AssignUpdateAt(o, ps[..n], i, v);
      assert ps[n].0 != ps[i].0;
    }
  }

  /** A key that some pair holds has a last value. */
  lemma {:induction false} LastValueAt(ps: seq<Pair>, i: nat)
    requires i < |ps|
    ensures LastValue(ps, ps[i].0).Some?
    decreases |ps|
  {
    if ps[|ps| - 1].0 != ps[i].0 {
      assert ps[..|ps| - 1][i] == ps[i];
      LastValueAt(ps[..|ps| - 1], i);
    }
  }

  /** A key no pair holds has no value. */
  lemma {:induction false} LastValueAbsent(ps: seq<Pair>, k: string)
    requires forall j :: 0 <= j < |ps| ==> ps[j].0 != k
    ensures LastValue(ps, k).None?
    decreases |ps|
  {
    if ps != [] {
      var init := ps[..|ps| - 1];
      assert forall j :: 0 <= j < |init| ==> init[j] == ps[j];
      LastValueAbsent(init, k);
    }
  }

  /** The first position of key `k` in `ps`, or `|ps|` when no pair has it. */
  function KeyIndex(ps: seq<Pair>, k: string): (i: nat)
    ensures i <= |ps|
    ensures i < |ps| ==> ps[i].0 == k
    ensures forall j :: 0 <= j < i ==> ps[j].0 != k
    decreases |ps|
  {
    if ps == [] then 0
    else if ps[0].0 == k then 0
    else 1 + KeyIndex(ps[1..], k)
  }

  /**
    A `Tags` map. It is a Go map, so it is held by reference and shared by every copy
    of an `Error` that carries it. `entries` lists its pairs in the order a `range`
    over the map visits them.
   */
  class TagMap {
    var entries: seq<Pair>

    ghost predicate Valid()
      reads this
    {
      DistinctKeys(entries)
    }

    /** The map's contents as a map. */
    function Contents(): map<string, Value>
      reads this
    {
      Assign(map[], entries)
    }

    /** `Tags{}`: an empty map. */
    constructor ()
      ensures entries == [] && Valid()
    {
      entries := [];
    }
  }

  /** A Go `error` value. */
  datatype Error =
    | Simple(msg: string)                  // an error without an Unwrap method
    | Wrapping(msg: string, cause: Error)  // an error whose Unwrap returns `cause`
    | Tagged(fur: FurError)                // a fur.Error

  /** `fur.Error`: the underlying error `Err` and a reference to its tag map. */
  datatype FurError = FurError(err: Error, tags: TagMap)

  /** The number of error values nested in `e`; it bounds every unwrap chain from `e`. */
  function Size(e: Error): nat {
    match e
    case Simple(_) => 1
    case Wrapping(_, c) => 1 + Size(c)
    case Tagged(f) => 1 + Size(f.err)
  }

  /** The first error under `e` that is not a fur.Error. */
  function Core(e: Error): (c: Error)
    ensures !c.Tagged?
  {
    if e.Tagged? then Core(e.fur.err) else e
  }

  /** `e.Error()`. A fur.Error shows its `Err`'s message, so the message of any stack of
      fur.Errors is that of the first other error under them; tags never show. */
  function Message(e: Error): (m: string)
    ensures m == Core(e).msg
    decreases Size(e), 0
  {
    match e
    case Simple(m) => m
    case Wrapping(m, _) => m
    case Tagged(f) => FurMessage(f)
  }

  /** `fur.Error.Error()`: the message of `Err`, unchanged. */
  function FurMessage(f: FurError): (m: string)
    ensures m == Core(f.err).msg
    decreases Size(f.err), 1
  {
    Message(f.err)
  }

  /** `xerrors.Unwrap(e)`: what `e`'s Unwrap method returns, or nothing when it has none.
      Every unwrap step goes to a strictly smaller error. */
  function Unwrap(e: Error): (r: Option<Error>)
    ensures r.Some? ==> Size(r.value) < Size(e)
    ensures e.Simple? ==> r == None
    ensures e.Wrapping? ==> r == Some(e.cause)
    decreases Size(e), 0
  {
    match e
    case Simple(_) => None
    case Wrapping(_, c) => Some(c)
    case Tagged(f) => FurUnwrap(f)
  }

  /** `fur.Error.Unwrap()`: the cause of `Err`, which skips `Err` itself. */
  function FurUnwrap(f: FurError): (r: Option<Error>)
    ensures r != Some(f.err)
    ensures r.Some? ==> Size(r.value) < Size(f.err)
    decreases Size(f.err), 1
  {
    Unwrap(f.err)
  }

  /** `e.(fur.Tagger)`: the map `Tags()` returns when `e` is a Tagger. Only fur.Error values are
      modelled as Taggers. */
  function AsTagger(e: Error): Option<TagMap> {
    if e.Tagged? then Some(e.fur.tags) else None
  }

  /** `fur.Error.Tags()`: this link's own map, by reference; no other link's tags. */
  function FurTags(f: FurError): TagMap {
    f.tags
  }

  /** Whether `links` is the sequence of errors `for ; err != nil; err = xerrors.Unwrap(err)`
      visits when it starts from `e`. */
  ghost predicate IsUnwrapWalk(e: Option<Error>, links: seq<Error>) {
    && (e.None? <==> links == [])
    && (e.Some? ==> links[0] == e.value)
    && (forall i :: 0 <= i < |links| - 1 ==> Unwrap(links[i]) == Some(links[i + 1]))
    && (links != [] ==> Unwrap(links[|links| - 1]) == None)
  }

  /** The unwrap chain from `e`, outermost link first. */
  function Chain(e: Option<Error>): seq<Error>
    decreases if e.Some? then Size(e.value) else 0
  {
    if e.None? then [] else [e.value] + Chain(Unwrap(e.value))
  }

  /** The chain is exactly the walk of the unwrap loop, and it gets strictly smaller at each
      step, so it is finite and never revisits an error. */
  lemma {:induction false} ChainIsWalk(e: Option<Error>)
    ensures IsUnwrapWalk(e, Chain(e))
    ensures forall i :: 0 <= i < |Chain(e)| ==> Size(Chain(e)[i]) <= Size(e.value) - i
    decreases if e.Some? then Size(e.value) else 0
  {
    if e.Some? {
      var rest := Chain(Unwrap(e.value));
      ChainIsWalk(Unwrap(e.value));
      assert Chain(e) == [e.value] + rest;
      forall i | 0 < i < |Chain(e)|
        ensures Size(Chain(e)[i]) <= Size(e.value) - i
      {
        assert Chain(e)[i] == rest[i - 1];
      }
    }
  }

  /** Because `Unwrap` skips `Err`, a fur.Error wrapped directly by another fur.Error (as in
      `fur.New(taggedErr)`) is never visited, so its tags are never collected. */
  lemma NestedFurSkipped(inner: FurError, tags: TagMap)
    ensures Tagged(inner) !in Chain(Some(Tagged(FurError(Tagged(inner), tags))))
  {
    var outer := Tagged(FurError(Tagged(inner), tags));
    var links := Chain(Some(outer));
    ChainIsWalk(Unwrap(outer));
    forall i | 0 <= i < |links|
      ensures links[i] != Tagged(inner)
    {
      if i > 0 {
        var rest := Chain(Unwrap(outer));
        assert links[i] == rest[i - 1];
        assert Size(rest[i - 1]) <= Size(Unwrap(outer).value);
      }
    }
  }

  /** The error `xerrors.Errorf` returns, given its rendered text and its `%w` operand if any. */
  function Formatted(text: string, wrapped: Option<Error>): (e: Error)
    ensures Message(e) == text
    ensures Unwrap(e) == wrapped
    ensures !e.Tagged?
  {
    if wrapped.Some? then Wrapping(text, wrapped.value) else Simple(text)
  }

  /** `Tag(key, value)`: sets `key` in the shared map in place and returns the same
      value, so every copy carrying that map sees the new tag. */
  method Tag(f: FurError, key: string, value: Value) returns (r: FurError)
    requires f.tags.Valid()
    modifies f.tags
    ensures r == f && r.tags == f.tags && f.tags.Valid()
    ensures f.tags.Contents() == old(f.tags.Contents())[key := value]
    ensures key !in old(f.tags.Contents()) ==> f.tags.entries == old(f.tags.entries) + [(key, value)]
    ensures key in old(f.tags.Contents()) ==>
      |f.tags.entries| == |old(f.tags.entries)| &&
      forall i :: 0 <= i < |old(f.tags.entries)| ==> f.tags.entries[i].0 == old(f.tags.entries)[i].0
  {
    var t := f.tags;
    var i := KeyIndex(t.entries, key);
    if i < |t.entries| {
      AssignUpdateAt(map[], t.entries, i, value);
      AssignLookup(map[], t.entries, key);
      LastValueAt(t.entries, i);
      t.entries := t.entries[i := (key, value)];
    } else {
      AssignLookup(map[], t.entries, key);
      LastValueAbsent(t.entries, key);
      assert (t.entries + [(key, value)])[..|t.entries|] == t.entries;
      t.entries := t.entries + [(key, value)];
    }
    r := f;
  }

  /** `fur.New(err)`: `err` with a new, empty tag map. */
  method New(err: Error) returns (f: FurError)
    ensures f.err == err
    ensures FurUnwrap(f) == Unwrap(err)
    ensures fresh(f.tags) && f.tags.entries == [] && f.tags.Valid()
  {
    var t := new TagMap();
    f := FurError(err, t);
  }

  /** `fur.Errorf(format, args...)`: the error `xerrors.Errorf` builds, with a new, empty tag map. */
  method Errorf(text: string, wrapped: Option<Error>) returns (f: FurError)
    ensures f.err == Formatted(text, wrapped)
    ensures Message(Tagged(f)) == text
    ensures FurUnwrap(f) == wrapped
    ensures fresh(f.tags) && f.tags.entries == [] && f.tags.Valid()
  {
    var t := new TagMap();
    f := FurError(Formatted(text, wrapped), t);
  }
}
