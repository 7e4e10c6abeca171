/** The logger: its configuration, its sink, and the two renderers that each make one write. */
module Log {
  import opened Wrappers
  import opened Fur
  import opened LogRender

  /** An `io.Writer`, by the sequence of writes it has received. */
  class Sink {
    var writes: seq<string>

    constructor ()
      ensures writes == []
    {
      writes := [];
    }

    /** `Write(p)`: one write call. */
    method Write(p: string)
      modifies this
      ensures writes == old(writes) + [p]
    {
      writes := writes + [p];
    }
  }

  /** `Logger`: where lines go, the prefix of text lines, and the flags. */
  class Logger {
    var out: Sink
    var prefix: string
    var flags: Flags

    /** `New(out, prefix, flags)`: a logger holding its three arguments as given. */
    constructor New(out: Sink, prefix: string, flags: Flags)
      ensures this.out == out && this.prefix == prefix && this.flags == flags
    {
      this.out := out;
      this.prefix := prefix;
      this.flags := flags;
    }

    method SetFlags(flags: Flags)
      modifies this
      ensures this.flags == flags && out == old(out) && prefix == old(prefix)
    {
      this.flags := flags;
    }

    method SetPrefix(prefix: string)
      modifies this
      ensures this.prefix == prefix && out == old(out) && flags == old(flags)
    {
      this.prefix := prefix;
    }

    method SetOutput(out: Sink)
      modifies this
      ensures this.out == out && prefix == old(prefix) && flags == old(flags)
    {
      this.out := out;
    }

    /** `write`: renders one call and writes it to `out` in a single write. */
    method Write(text: string, wrapped: Option<Error>, clock: Clock, caller: Option<Caller>,
                 marshal: Doc -> Option<string>) returns (s: string)
      modifies out
      ensures var r := old(Emit(flags, prefix, clock, caller, text, wrapped, marshal));
        s == r.returned && out.writes == old(out.writes) + r.written
    {
      if flags & FlagJSON != 0 {
        s := WriteJSON(text, wrapped, clock, caller, marshal);
        return;
      }
      ChainAllocated(wrapped);
      s := RenderText(flags, prefix, clock, caller, text, wrapped);
      assert forall m :: m in Maps(Chain(wrapped)) ==> old(allocated(m));
      out.Write(s);
    }

    /** `writeJSON`: builds the document, marshals it and, when that succeeds, writes it once. */
    method WriteJSON(text: string, wrapped: Option<Error>, clock: Clock, caller: Option<Caller>,
                     marshal: Doc -> Option<string>) returns (s: string)
      modifies out
      ensures var r := old(JsonOutcome(flags, clock, caller, text, wrapped, marshal));
        s == r.returned && out.writes == old(out.writes) + r.written
    {
      ChainAllocated(wrapped);
      var err := Formatted(text, wrapped);
      var msg := Message(err);
      var o := BuildDocument(flags, clock, caller, msg, Unwrap(err));
      assert forall m :: m in Maps(Chain(wrapped)) ==> old(allocated(m));
      var buf := marshal(o);
      if buf.None? {
        return msg;
      }
      s := buf.value;
      out.Write(s + "\n");
    }

    /** `Printf`: one call, its result dropped. */
    method Printf(text: string, wrapped: Option<Error>, clock: Clock, caller: Option<Caller>,
                  marshal: Doc -> Option<string>)
      modifies out
      ensures out.writes == old(out.writes) + old(Emit(flags, prefix, clock, caller, text, wrapped, marshal)).written
    {
      var _ := Write(text, wrapped, clock, caller, marshal);
    }

    /** `Fatalf`: one call, then the exit status the process ends with. */
    method Fatalf(text: string, wrapped: Option<Error>, clock: Clock, caller: Option<Caller>,
                  marshal: Doc -> Option<string>) returns (status: int)
      modifies out
      ensures out.writes == old(out.writes) + old(Emit(flags, prefix, clock, caller, text, wrapped, marshal)).written
      ensures status == 1
    {
      var _ := Write(text, wrapped, clock, caller, marshal);
      status := 1;
    }

    /** `Panicf`: one call, then the value `panic` is raised with: what the call returned. */
    method Panicf(text: string, wrapped: Option<Error>, clock: Clock, caller: Option<Caller>,
                  marshal: Doc -> Option<string>) returns (payload: string)
      modifies out
      ensures var r := old(Emit(flags, prefix, clock, caller, text, wrapped, marshal));
        payload == r.returned && out.writes == old(out.writes) + r.written
    {
      payload := Write(text, wrapped, clock, caller, marshal);
    }
  }

  /** The line `write` builds: header, message, tag segment, and a newline unless one ends it. */
  method RenderText(flags: Flags, prefix: string, clock: Clock, caller: Option<Caller>,
                    text: string, wrapped: Option<Error>) returns (s: string)
    ensures s == TextLine(flags, prefix, clock, caller, text, wrapped)
  {
    ChainAllocated(wrapped);
    var b := TextHeader(flags, prefix, clock, caller);
    var err := Formatted(text, wrapped);
    b := b + Message(err);
    b := AppendTags(b, Unwrap(err));
    s := b;
    if !HasSuffix(s, "\n") {
      s := s + "\n";
    }
  }

  /** The document `writeJSON` builds for message `msg` with cause `cause`. */
  method BuildDocument(flags: Flags, clock: Clock, caller: Option<Caller>, msg: string, cause: Option<Error>)
    returns (o: Doc)
    ensures o == JsonDoc(flags, clock, caller, msg, cause)
  {
    ChainAllocated(cause);
    o := BuiltinFields(flags, clock, caller, msg, cause);
    o := AssignTags(o, cause);
  }

  /** What `write` puts before the message: timestamp, prefix and caller location. */
  method TextHeader(flags: Flags, prefix: string, clock: Clock, caller: Option<Caller>) returns (b: string)
    ensures b == Header(flags, prefix, clock, caller)
  {
    b := "";
    if flags & FlagTimestamp != 0 {
      var now := if flags & FlagUTC != 0 then clock.utc else clock.local;
      b := b + (now + " ");
      assert b == Stamp(flags, clock) + " ";
    }
    b := b + prefix;
    ghost var before := b;
    if flags & (FlagFile | FlagPath) != 0 {
      if caller.Some? {
        var file := caller.value.file;
        if flags & FlagPath == 0 {
          file := Base(file);
        }
        var location := file + ":" + Decimal(caller.value.line) + ": ";
        assert location == Location(flags, caller);
        b := b + location;
      }
    }
    assert b == before + Location(flags, caller);
  }

  /** The first fields `writeJSON` puts in its document, in the order it sets them. */
  method BuiltinFields(flags: Flags, clock: Clock, caller: Option<Caller>, msg: string, cause: Option<Error>)
    returns (o: Doc)
    ensures o == BaseDoc(flags, clock, caller, msg, cause)
  {
    o := map[];
    o := o["message" := Str(msg)];

    if flags & FlagTimestamp != 0 {
      var now := if flags & FlagUTC != 0 then clock.utc else clock.local;
      o := o["timestamp" := Str(now)];
    }

    if flags & (FlagFile | FlagPath) != 0 {
      if caller.Some? {
        var file := caller.value.file;
        if flags & FlagPath == 0 {
          file := Base(file);
        }
        o := o["file" := Str(file + ":" + Decimal(caller.value.line) + ": ")];
      }
    }

    if cause.None? {
      o := o["level" := Str("info")];
    } else {
      o := o["level" := Str("error")];
    }
  }

  /** The tag loop of `write`: appends the tag segment of the chain from `err` to `b`. */
  method AppendTags(b0: string, err: Option<Error>) returns (b: string)
    ensures b == b0 + Segment(TagPairs(Chain(err)))
  {
    ChainAllocated(err);
    b := b0;
    var cur := err;
    ghost var done: seq<Error> := [];
    var prefix := " (";
    while cur.Some?
      invariant Chain(err) == done + Chain(cur)
      invariant b == b0 + Opened(TagPairs(done))
      invariant prefix == PrefixAfter(TagPairs(done))
      decreases if cur.Some? then Size(cur.value) else 0
    {
      var link := cur.value;
      ghost var seen := TagPairs(done);
      var tagger := AsTagger(link);
      if tagger.Some? {
        b, prefix := AppendPairs(b, prefix, tagger.value.entries, b0, seen);
        MapsPrefix(done, Chain(cur));
        assert TagPairs(done) == seen;
      } else {
        assert seen + OwnPairs(link) == seen;
      }
      assert Chain(err) == (done + [link]) + Chain(Unwrap(link)) by {
        ChainStep(err, done, cur);
      }
      assert b == b0 + Opened(TagPairs(done + [link])) && prefix == PrefixAfter(TagPairs(done + [link])) by {
        TagPairsSnoc(done, link);
      }
      done := done + [link];
      cur := Unwrap(link);
    }
    assert done + [] == done;
    ghost var ps := TagPairs(done);
    if prefix != " (" {
      Associative(b0, Opened(ps), ")");
      b := b + ")";
    } else {
      assert Opened(ps) + "" == Opened(ps);
    }
  }

  /** One link's `for k, v := range e.Tags()` of `write`: each pair after the current prefix. */
  method AppendPairs(b0: string, prefix0: string, ps: seq<Pair>, ghost start: string, ghost seen: seq<Pair>)
    returns (b: string, prefix: string)
    requires b0 == start + Opened(seen) && prefix0 == PrefixAfter(seen)
    ensures b == start + Opened(seen + ps) && prefix == PrefixAfter(seen + ps)
  {
    b, prefix := b0, prefix0;
    var i := 0;
    ghost var acc := seen;
    assert seen + ps[..0] == seen;
    while i < |ps|
      invariant 0 <= i <= |ps|
      invariant acc == seen + ps[..i]
      invariant b == start + Opened(acc)
      invariant prefix == PrefixAfter(acc)
    {
      var text := prefix + PairText(ps[i]);
      assert b + text == start + Opened(acc + [ps[i]]) by {
        OpenedSnoc(acc, ps[i]);
        Associative(start, Opened(acc), text);
      }
      b := b + text;
      prefix := " ";
      SliceSnoc(seen, ps, i);
      acc := acc + [ps[i]];
      i := i + 1;
    }
    assert ps[..i] == ps;
  }

  /** The tag maps of a front part of a chain are tag maps of the whole. */
  lemma MapsPrefix(front: seq<Error>, rest: seq<Error>)
    ensures Maps(front) <= Maps(front + rest)
  {
    forall m | m in Maps(front)
      ensures m in Maps(front + rest)
    {
      var i :| 0 <= i < |front| && front[i].Tagged? && front[i].fur.tags == m;
      assert (front + rest)[i] == front[i];
    }
  }

  /** One step of the chain walk: the link at `cur` moves to the walked part. */
  lemma ChainStep(err: Option<Error>, done: seq<Error>, cur: Option<Error>)
    requires cur.Some? && Chain(err) == done + Chain(cur)
    ensures Chain(err) == (done + [cur.value]) + Chain(Unwrap(cur.value))
  {
  }

  lemma SliceSnoc(seen: seq<Pair>, ps: seq<Pair>, i: nat)
    requires i < |ps|
    ensures seen + ps[..i + 1] == (seen + ps[..i]) + [ps[i]]
  {
    assert ps[..i + 1] == ps[..i] + [ps[i]];
  }

  /** The tag loop of `writeJSON`: assigns every tag of the chain from `err` at top level. */
  method AssignTags(o0: Doc, err: Option<Error>) returns (o: Doc)
    ensures o == Assign(o0, TagPairs(Chain(err)))
  {
    ChainAllocated(err);
    o := o0;
    var cur := err;
    ghost var done: seq<Error> := [];
    while cur.Some?
      invariant Chain(err) == done + Chain(cur)
      invariant o == Assign(o0, TagPairs(done))
      decreases if cur.Some? then Size(cur.value) else 0
    {
      var link := cur.value;
      ghost var seen := TagPairs(done);
      var tagger := AsTagger(link);
      if tagger.Some? {
        o := AssignPairs(o, tagger.value.entries, o0, seen);
        MapsPrefix(done, Chain(cur));
      } else {
        assert seen + OwnPairs(link) == seen;
      }
      assert Chain(err) == (done + [link]) + Chain(Unwrap(link)) by {
        ChainStep(err, done, cur);
      }
      TagPairsSnoc(done, link);
      done := done + [link];
      cur := Unwrap(link);
    }
    assert done + [] == done;
  }

  /** One link's `for k, v := range e.Tags() { o[k] = v }`. */
  method AssignPairs(o1: Doc, ps: seq<Pair>, ghost base: Doc, ghost seen: seq<Pair>) returns (o: Doc)
    requires o1 == Assign(base, seen)
    ensures o == Assign(base, seen + ps)
  {
    o := o1;
    var i := 0;
    assert seen + ps[..0] == seen;
    while i < |ps|
      invariant 0 <= i <= |ps|
      invariant o == Assign(base, seen + ps[..i])
    {
      var (k, v) := ps[i];
      assert o[k := v] == Assign(base, seen + ps[..i + 1]) by {
        SliceSnoc(seen, ps, i);
        AssignSnoc(base, seen + ps[..i], ps[i]);
      }
      o := o[k := v];
      i := i + 1;
    }
    assert ps[..i] == ps;
  }
}
