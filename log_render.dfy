/**
  What one logging call produces: the text line, or the JSON document, built from the
  logger's flags and prefix, the call's timestamp and caller location, the formatted
  message and the unwrap chain of its cause.
 */
module LogRender {
  import opened Wrappers
  import opened Fur

  /** Logger flags: the bits of a Go `int`. */
  type Flags = bv64

  const FlagTimestamp: Flags := 1  // prefix each line with a timestamp (local time)
  const FlagUTC: Flags := 2        // render that timestamp in UTC
  const FlagFile: Flags := 4       // the caller's file name and line
  const FlagPath: Flags := 8       // the caller's full path and line
  const FlagJSON: Flags := 16      // one JSON object per line instead of text

  /** Whether bit `f` is set in `flags`. */
  predicate Has(flags: Flags, f: Flags) {
    flags & f != 0
  }

  /** `time.Now()` of one call, formatted with `time.RFC3339Nano` in the local zone and in UTC. */
  datatype Clock = Clock(local: string, utc: string)

  /** What `runtime.Caller` resolved: the source file path and line of the logging call. */
  datatype Caller = Caller(file: string, line: int)

  /** The timestamp text of a call: the UTC rendering exactly when `FlagUTC` is set. */
  function Stamp(flags: Flags, clock: Clock): string {
    if flags & FlagUTC != 0 then clock.utc else clock.local
  }

  /** The file part of `path.Split(p)`: everything after the last '/'. */
  function Base(p: string): (r: string)
    ensures |r| <= |p| && r == p[|p| - |r|..]
    ensures '/' !in r
    ensures |r| < |p| ==> p[|p| - |r| - 1] == '/'
    decreases |p|
  {
    if p == [] || p[|p| - 1] == '/' then [] else Base(p[..|p| - 1]) + [p[|p| - 1]]
  }

  /** The character of a decimal digit. */
  function DigitChar(d: nat): char
    requires d < 10
  {
    "0123456789"[d]
  }

  /** Whether every character of `s` is a decimal digit. */
  predicate AllDigits(s: string) {
    forall i :: 0 <= i < |s| ==> '0' <= s[i] <= '9'
  }

  /** The number a string of decimal digits denotes. */
  function DigitsValue(s: string): nat
    requires AllDigits(s)
    decreases |s|
  {
    if s == [] then 0 else DigitsValue(s[..|s| - 1]) * 10 + (s[|s| - 1] as int - '0' as int)
  }

  /** The decimal digits of `n`, without leading zeros; they denote `n` again. */
  function Digits(n: nat): (s: string)
    ensures |s| > 0 && AllDigits(s)
    ensures |s| > 1 ==> s[0] != '0'
    ensures DigitsValue(s) == n
    decreases n
  {
    if n < 10 then [DigitChar(n)] else Digits(n / 10) + [DigitChar(n % 10)]
  }

  /** `%d` of an `int`: its digits, after a '-' when it is negative. */
  function Decimal(n: int): (s: string)
    ensures n >= 0 ==> |s| > 0 && AllDigits(s) && (|s| > 1 ==> s[0] != '0') && DigitsValue(s) == n
    ensures n < 0 ==> |s| > 1 && s[0] == '-' && AllDigits(s[1..]) && (|s| > 2 ==> s[1] != '0')
                      && DigitsValue(s[1..]) == -n
  {
    if n < 0 then "-" + Digits(-n) else Digits(n)
  }

  /** `%v` of a tag value. */
  function Show(v: Value): string {
    match v
    case Str(s) => s
    case Int(i) => Decimal(i)
    case Bool(b) => if b then "true" else "false"
    case Nil => "<nil>"
    case Other(t) => t
  }

  /** The `"%s:%d: "` location text, empty unless a file flag is set and the caller resolved. */
  function Location(flags: Flags, caller: Option<Caller>): string {
    if flags & (FlagFile | FlagPath) != 0 && caller.Some? then
      var file := if flags & FlagPath == 0 then Base(caller.value.file) else caller.value.file;
      file + ":" + Decimal(caller.value.line) + ": "
    else
      ""
  }

  /** The location is the full path with `FlagPath`, the base name with only `FlagFile`, and
      absent without either flag or without a resolved caller. */
  lemma LocationShape(flags: Flags, caller: Option<Caller>)
    ensures !(Has(flags, FlagFile) || Has(flags, FlagPath)) || caller.None? ==> Location(flags, caller) == ""
    ensures Has(flags, FlagPath) && caller.Some? ==>
      Location(flags, caller) == caller.value.file + ":" + Decimal(caller.value.line) + ": "
    ensures Has(flags, FlagFile) && !Has(flags, FlagPath) && caller.Some? ==>
      Location(flags, caller) == Base(caller.value.file) + ":" + Decimal(caller.value.line) + ": "
  {
    FileBits(flags);
  }

  /** The text before the message: `[timestamp ][prefix][file:line: ]`. */
  function Header(flags: Flags, prefix: string, clock: Clock, caller: Option<Caller>): string {
    (if flags & FlagTimestamp != 0 then Stamp(flags, clock) + " " else "") + prefix + Location(flags, caller)
  }

  /** The timestamp comes first, in UTC exactly when `FlagUTC` is set and in local time
      otherwise, and only with `FlagTimestamp`; the JSON `timestamp` field makes the same choice. */
  lemma HeaderStamp(flags: Flags, prefix: string, clock: Clock, caller: Option<Caller>,
                    text: string, wrapped: Option<Error>)
    ensures Has(flags, FlagTimestamp) && Has(flags, FlagUTC) ==>
      Header(flags, prefix, clock, caller) == clock.utc + " " + prefix + Location(flags, caller)
    ensures Has(flags, FlagTimestamp) && !Has(flags, FlagUTC) ==>
      Header(flags, prefix, clock, caller) == clock.local + " " + prefix + Location(flags, caller)
    ensures !Has(flags, FlagTimestamp) ==> Header(flags, prefix, clock, caller) == prefix + Location(flags, caller)
    ensures Has(flags, FlagTimestamp) ==>
      BaseDoc(flags, clock, caller, text, wrapped)["timestamp"] == Str(if Has(flags, FlagUTC) then clock.utc else clock.local)
    ensures !Has(flags, FlagTimestamp) ==> "timestamp" !in BaseDoc(flags, clock, caller, text, wrapped)
  {
    assert "" + prefix == prefix;
    BaseDocFields(flags, clock, caller, text, wrapped);
  }

  /** The text one tag contributes: `k=v`. */
  function PairText(p: Pair): string {
    p.0 + "=" + Show(p.1)
  }

  /** The value of the `prefix` variable of the tag loop once the pairs `ps` are written. */
  function PrefixAfter(ps: seq<Pair>): string {
    if ps == [] then " (" else " "
  }

  /** What the tag loop has appended once it has written the pairs `ps`: each pair after the
      prefix current at that point. */
  function Opened(ps: seq<Pair>): string
    decreases |ps|
  {
    if ps == [] then ""
    else Opened(ps[..|ps| - 1]) + PrefixAfter(ps[..|ps| - 1]) + PairText(ps[|ps| - 1])
  }

  lemma OpenedSnoc(ps: seq<Pair>, p: Pair)
    ensures Opened(ps + [p]) == Opened(ps) + (PrefixAfter(ps) + PairText(p))
    ensures PrefixAfter(ps + [p]) == " "
  {
    assert (ps + [p])[..|ps|] == ps;
  }

  /** The tag segment: the loop's text, closed with ")" when the prefix has moved on from " (". */
  function Segment(ps: seq<Pair>): string {
    Opened(ps) + (if PrefixAfter(ps) != " (" then ")" else "")
  }

  /** The texts of the pairs, in order. */
  function PairTexts(ps: seq<Pair>): (ts: seq<string>)
    ensures |ts| == |ps| && forall i :: 0 <= i < |ps| ==> ts[i] == PairText(ps[i])
    decreases |ps|
  {
    if ps == [] then [] else PairTexts(ps[..|ps| - 1]) + [PairText(ps[|ps| - 1])]
  }

  /** `xs` joined with single spaces. */
  function Join(xs: seq<string>): string
    decreases |xs|
  {
    if xs == [] then "" else if |xs| == 1 then xs[0] else xs[0] + " " + Join(xs[1..])
  }

  lemma {:induction false} JoinSnoc(xs: seq<string>, y: string)
    requires xs != []
    ensures Join(xs + [y]) == Join(xs) + " " + y
    decreases |xs|
  {
    if |xs| > 1 {
      assert (xs + [y])[1..] == xs[1..] + [y];
      JoinSnoc(xs[1..], y);
    }
  }

  /** The tag segment is empty when there are no tags; otherwise it is " (", the pairs
      `k=v` separated by exactly one space, and ")". */
  lemma {:induction false} SegmentShape(ps: seq<Pair>)
    ensures ps == [] ==> Segment(ps) == ""
    ensures ps != [] ==> Segment(ps) == " (" + Join(PairTexts(ps)) + ")"
  {
    if ps != [] {
      OpenedJoined(ps);
    }
  }

  lemma {:induction false} OpenedJoined(ps: seq<Pair>)
    requires ps != []
    ensures Opened(ps) == " (" + Join(PairTexts(ps))
    decreases |ps|
  {
    var init := ps[..|ps| - 1];
    var t := PairText(ps[|ps| - 1]);
    assert PairTexts(ps) == PairTexts(init) + [t];
    if init != [] {
      var j := Join(PairTexts(init));
      assert Opened(ps) == (" (" + j) + " " + t by {
        OpenedJoined(init);
      }
      assert Join(PairTexts(ps)) == j + " " + t by {
        JoinSnoc(PairTexts(init), t);
      }
      Associative(" (", j, " ");
      Associative(" (", j + " ", t);
    } else {
      assert PairTexts(ps) == [t];
    }
  }

  lemma Associative(a: string, b: string, c: string)
    ensures (a + b) + c == a + (b + c)
  {
  }

  /** The tag maps held by the links of `links`. */
  function Maps(links: seq<Error>): set<TagMap> {
    set i | 0 <= i < |links| && links[i].Tagged? :: links[i].fur.tags
  }

  lemma {:induction false} UnwrapAllocated(e: Error)
    ensures Unwrap(e).Some? ==> allocated(Unwrap(e).value)
    decreases Size(e)
  {
    if e.Tagged? {
      UnwrapAllocated(e.fur.err);
    }
  }

  /** Every tag map of a chain already exists: the chain only holds errors reachable from `e`. */
  lemma {:induction false} ChainAllocated(e: Option<Error>)
    ensures forall m :: m in Maps(Chain(e)) ==> allocated(m)
    decreases if e.Some? then Size(e.value) else 0
  {
    if e.Some? {
      UnwrapAllocated(e.value);
      ChainAllocated(Unwrap(e.value));
      var rest := Chain(Unwrap(e.value));
      assert Chain(e) == [e.value] + rest;
      forall m | m in Maps(Chain(e))
        ensures allocated(m)
      {
        var i :| 0 <= i < |Chain(e)| && Chain(e)[i].Tagged? && Chain(e)[i].fur.tags == m;
        if i > 0 {
          assert Chain(e)[i] == rest[i - 1];
          assert m in Maps(rest);
        }
      }
    }
  }

  /** The pairs of one link: those of its tag map when it is a Tagger, none otherwise. */
  function OwnPairs(e: Error): seq<Pair>
    reads if e.Tagged? then {e.fur.tags} else {}
  {
    match AsTagger(e)
    case Some(t) => t.entries
    case None => []
  }

  /** The pairs of all links, link by link from the outermost. */
  function TagPairs(links: seq<Error>): seq<Pair>
    reads Maps(links)
    decreases |links|
  {
    if links == [] then []
    else
      assert Maps(links[..|links| - 1]) <= Maps(links);
      TagPairs(links[..|links| - 1]) + OwnPairs(links[|links| - 1])
  }

  lemma TagPairsSnoc(links: seq<Error>, e: Error)
    ensures TagPairs(links + [e]) == TagPairs(links) + OwnPairs(e)
  {
    assert (links + [e])[..|links|] == links;
  }

  lemma {:induction false} TagPairsConcat(a: seq<Error>, b: seq<Error>)
    ensures TagPairs(a + b) == TagPairs(a) + TagPairs(b)
    decreases |b|
  {
    if b == [] {
      assert a + b == a;
    } else {
      assert (a + b)[..|a + b| - 1] == a + b[..|b| - 1];
      TagPairsConcat(a, b[..|b| - 1]);
    }
  }

  /** The pairs of the links up to and including link `i`: those before it, then its own. */
  lemma TagPairsThrough(links: seq<Error>, i: nat)
    requires i < |links|
    ensures TagPairs(links[..i + 1]) == TagPairs(links[..i]) + OwnPairs(links[i])
  {
    assert links[..i + 1][..i] == links[..i];
  }

  /** The pairs of the chain split around any one link. */
  lemma TagPairsSplit(links: seq<Error>, i: nat)
    requires i < |links|
    ensures TagPairs(links) == TagPairs(links[..i]) + OwnPairs(links[i]) + TagPairs(links[i + 1..])
  {
    TagPairsThrough(links, i);
    TagPairsAround(links, i + 1);
  }

  /** The pairs of the chain are those before position `n`, then those from it on. */
  lemma TagPairsAround(links: seq<Error>, n: nat)
    requires n <= |links|
    ensures TagPairs(links) == TagPairs(links[..n]) + TagPairs(links[n..])
  {
    assert links == links[..n] + links[n..];
    TagPairsConcat(links[..n], links[n..]);
  }

  /** A fur.Error link contributes its own map, the one `Tags()` returns, and the rest of the
      chain's tags come from the links after it: `Tags()` holds no other link's tags. */
  lemma OwnTagsOnly(f: FurError)
    ensures TagPairs(Chain(Some(Tagged(f)))) == FurTags(f).entries + TagPairs(Chain(FurUnwrap(f)))
  {
    LinkThenRest(Tagged(f));
  }

  /** A link that is not a Tagger adds no tags; the walk goes on to its cause. */
  lemma NonTaggerAddsNone(e: Error)
    requires AsTagger(e).None?
    ensures TagPairs(Chain(Some(e))) == TagPairs(Chain(Unwrap(e)))
  {
    LinkThenRest(e);
    assert [] + TagPairs(Chain(Unwrap(e))) == TagPairs(Chain(Unwrap(e)));
  }

  /** The tags of the chain from `e`: those of `e` itself, then those of the chain from its cause. */
  lemma LinkThenRest(e: Error)
    ensures TagPairs(Chain(Some(e))) == OwnPairs(e) + TagPairs(Chain(Unwrap(e)))
  {
    var rest := Chain(Unwrap(e));
    assert Chain(Some(e)) == [e] + rest;
    assert TagPairs([e] + rest) == TagPairs([e]) + TagPairs(rest) by {
      TagPairsConcat([e], rest);
    }
    assert TagPairs([e]) == OwnPairs(e) by {
      TagPairsSnoc([], e);
      assert [] + [e] == [e];
    }
  }

  /** Every tag of an outer link is emitted before any tag of an inner link. */
  lemma OuterTagsFirst(links: seq<Error>, i: nat, j: nat)
    requires i < j < |links|
    ensures TagPairs(links) ==
      TagPairs(links[..i]) + OwnPairs(links[i]) + TagPairs(links[i + 1..j]) + OwnPairs(links[j]) + TagPairs(links[j + 1..])
  {
    TagPairsSplit(links, j);
    var front := links[..j];
    TagPairsSplit(front, i);
    assert front[..i] == links[..i];
    assert front[i + 1..] == links[i + 1..j];
  }

  /** The chain has no tags exactly when no link of it is a Tagger with tags. */
  lemma {:induction false} NoTagsAnywhere(links: seq<Error>)
    ensures TagPairs(links) == [] <==> forall i :: 0 <= i < |links| ==> OwnPairs(links[i]) == []
    decreases |links|
  {
    if links != [] {
      var init := links[..|links| - 1];
      NoTagsAnywhere(init);
      assert forall i :: 0 <= i < |init| ==> init[i] == links[i];
    }
  }

  /** Whether `s` ends with `suffix`. */
  predicate HasSuffix(s: string, suffix: string) {
    |suffix| <= |s| && s[|s| - |suffix|..] == suffix
  }

  /** `s` with a newline appended unless it already ends with one: it always ends with exactly
      the text of `s` followed by at most one added newline. */
  function EnsureNewline(s: string): (r: string)
    ensures |r| > 0 && r[|r| - 1] == '\n'
    ensures |s| <= |r| <= |s| + 1 && r[..|s|] == s
    ensures |r| == |s| <==> |s| > 0 && s[|s| - 1] == '\n'
  {
    if HasSuffix(s, "\n") then s else s + "\n"
  }

  /** The text line of a call without `FlagJSON`: header, message, the tags of the chain of the
      message's cause, and a final newline. */
  function TextLine(flags: Flags, prefix: string, clock: Clock, caller: Option<Caller>,
                    text: string, wrapped: Option<Error>): string
    reads Maps(Chain(wrapped))
  {
    EnsureNewline(Header(flags, prefix, clock, caller) + text + Segment(TagPairs(Chain(wrapped))))
  }

  /** The line is `[timestamp ][prefix][file:line: ]message[ (k=v ...)]` and then a newline
      when that text does not end with one already. */
  lemma TextLineLayout(flags: Flags, prefix: string, clock: Clock, caller: Option<Caller>,
                       text: string, wrapped: Option<Error>)
    ensures var body := (if Has(flags, FlagTimestamp) then Stamp(flags, clock) + " " else "") + prefix
                        + Location(flags, caller) + text + Segment(TagPairs(Chain(wrapped)));
      && TextLine(flags, prefix, clock, caller, text, wrapped)[..|body|] == body
      && (TextLine(flags, prefix, clock, caller, text, wrapped) == body <==> HasSuffix(body, "\n"))
      && (!HasSuffix(body, "\n") ==> TextLine(flags, prefix, clock, caller, text, wrapped) == body + "\n")
  {
  }

  /** A line whose chain carries no tags has no tag segment. */
  lemma TextWithoutTags(flags: Flags, prefix: string, clock: Clock, caller: Option<Caller>,
                        text: string, wrapped: Option<Error>)
    requires forall e :: e in Chain(wrapped) ==> OwnPairs(e) == []
    ensures TextLine(flags, prefix, clock, caller, text, wrapped) == EnsureNewline(Header(flags, prefix, clock, caller) + text)
  {
    var links := Chain(wrapped);
    NoTagsAnywhere(links);
    assert Header(flags, prefix, clock, caller) + text + "" == Header(flags, prefix, clock, caller) + text;
  }

  /** A JSON document: field name to value; the built-in fields are strings. */
  type Doc = map<string, Value>

  /** `message`, then `timestamp` and `file` when their flags ask for them, then `level`. */
  function BaseDoc(flags: Flags, clock: Clock, caller: Option<Caller>, text: string, wrapped: Option<Error>): Doc {
    Fields(text, flags & FlagTimestamp != 0, Str(Stamp(flags, clock)),
           flags & (FlagFile | FlagPath) != 0 && caller.Some?, Str(Location(flags, caller)),
           Str(if wrapped.None? then "info" else "error"))
  }

  /** The document of a call with `FlagJSON`: the built-in fields, then every tag of the chain
      assigned at top level, outer links first. */
  function JsonDoc(flags: Flags, clock: Clock, caller: Option<Caller>, text: string, wrapped: Option<Error>): Doc
    reads Maps(Chain(wrapped))
  {
    Assign(BaseDoc(flags, clock, caller, text, wrapped), TagPairs(Chain(wrapped)))
  }

  /** The built-in fields hold exactly what the flags ask for. */
  lemma BaseDocFields(flags: Flags, clock: Clock, caller: Option<Caller>, text: string, wrapped: Option<Error>)
    ensures var o := BaseDoc(flags, clock, caller, text, wrapped);
      && o.Keys == {"message", "level"}
                   + (if Has(flags, FlagTimestamp) then {"timestamp"} else {})
                   + (if (Has(flags, FlagFile) || Has(flags, FlagPath)) && caller.Some? then {"file"} else {})
      && o["message"] == Str(text)
      && (Has(flags, FlagTimestamp) ==> o["timestamp"] == Str(Stamp(flags, clock)))
      && ("file" in o ==> o["file"] == Str(Location(flags, caller)))
      && o["level"] == Str(if wrapped.None? then "info" else "error")
  {
    FileBits(flags);
    FieldsShape(text, flags & FlagTimestamp != 0, Str(Stamp(flags, clock)),
                flags & (FlagFile | FlagPath) != 0 && caller.Some?, Str(Location(flags, caller)),
                Str(if wrapped.None? then "info" else "error"));
  }

  /** `message`, then `timestamp` and `file` when asked for, then `level`, set in that order. */
  function Fields(text: string, withTs: bool, ts: Value, withFile: bool, file: Value, level: Value): Doc {
    var o := map["message" := Str(text)];
    var o := if withTs then o["timestamp" := ts] else o;
    var o := if withFile then o["file" := file] else o;
    o["level" := level]
  }

  lemma FieldsShape(text: string, withTs: bool, ts: Value, withFile: bool, file: Value, level: Value)
    ensures var o := Fields(text, withTs, ts, withFile, file, level);
      && o.Keys == {"message", "level"} + (if withTs then {"timestamp"} else {}) + (if withFile then {"file"} else {})
      && o["message"] == Str(text)
      && (withTs ==> o["timestamp"] == ts)
      && ("file" in o ==> withFile && o["file"] == file)
      && o["level"] == level
  {
  }

  /** `flags&(FlagFile|FlagPath) != 0` asks whether either file flag is set. */
  lemma FileBits(flags: Flags)
    ensures flags & (FlagFile | FlagPath) != 0 <==> Has(flags, FlagFile) || Has(flags, FlagPath)
  {
  }

  /** The level is "info" exactly when the message wraps no error and "error" otherwise, unless
      some tag of the chain is itself named "level". */
  lemma JsonLevel(flags: Flags, clock: Clock, caller: Option<Caller>, text: string, wrapped: Option<Error>)
    requires LastValue(TagPairs(Chain(wrapped)), "level").None?
    ensures "level" in JsonDoc(flags, clock, caller, text, wrapped)
    ensures JsonDoc(flags, clock, caller, text, wrapped)["level"] == Str("info") <==> wrapped.None?
    ensures JsonDoc(flags, clock, caller, text, wrapped)["level"] == Str("error") <==> wrapped.Some?
  {
    AssignLookup(BaseDoc(flags, clock, caller, text, wrapped), TagPairs(Chain(wrapped)), "level");
  }

  /** Every tag key of the chain is a field, holding the value of its innermost occurrence, even
      over a built-in field of the same name; the other fields are the built-in ones. */
  lemma JsonTags(flags: Flags, clock: Clock, caller: Option<Caller>, text: string, wrapped: Option<Error>, k: string)
    ensures var doc := JsonDoc(flags, clock, caller, text, wrapped);
            var last := LastValue(TagPairs(Chain(wrapped)), k);
            var base := BaseDoc(flags, clock, caller, text, wrapped);
      && (k in doc <==> k in base || last.Some?)
      && (last.Some? ==> doc[k] == last.value)
      && (last.None? && k in base ==> doc[k] == base[k])
  {
    AssignLookup(BaseDoc(flags, clock, caller, text, wrapped), TagPairs(Chain(wrapped)), k);
  }

  /** A deeper link's tag wins over the same key on a link nearer the top. */
  lemma JsonInnerLinkWins(flags: Flags, clock: Clock, caller: Option<Caller>, text: string,
                          wrapped: Option<Error>, i: nat, j: nat, k: string)
    requires i < j < |Chain(wrapped)|
    requires LastValue(OwnPairs(Chain(wrapped)[i]), k).Some?
    requires LastValue(OwnPairs(Chain(wrapped)[j]), k).Some?
    requires forall m :: j < m < |Chain(wrapped)| ==> LastValue(OwnPairs(Chain(wrapped)[m]), k).None?
    ensures k in JsonDoc(flags, clock, caller, text, wrapped)
    ensures JsonDoc(flags, clock, caller, text, wrapped)[k] == LastValue(OwnPairs(Chain(wrapped)[j]), k).value
  {
    LinkWins(BaseDoc(flags, clock, caller, text, wrapped), Chain(wrapped), j, k);
  }

  /** Assigning the pairs of `links` leaves `k` with its value on the last link that has it. */
  lemma LinkWins(base: Doc, links: seq<Error>, j: nat, k: string)
    requires j < |links|
    requires LastValue(OwnPairs(links[j]), k).Some?
    requires forall m :: j < m < |links| ==> LastValue(OwnPairs(links[m]), k).None?
    ensures k in Assign(base, TagPairs(links))
    ensures Assign(base, TagPairs(links))[k] == LastValue(OwnPairs(links[j]), k).value
  {
    var own := OwnPairs(links[j]);
    var tail := TagPairs(links[j + 1..]);
    var front := TagPairs(links[..j]);
    assert TagPairs(links) == front + (own + tail) by {
      TagPairsSplit(links, j);
    }
    assert LastValue(own + tail, k) == LastValue(own, k) by {
      NoKeyAfter(links, j, k);
      LastValueConcat(own, tail, k);
    }
    InnerOverwritesOuter(base, front, own + tail, k);
  }

  lemma NoKeyAfter(links: seq<Error>, j: nat, k: string)
    requires j < |links|
    requires forall m :: j < m < |links| ==> LastValue(OwnPairs(links[m]), k).None?
    ensures LastValue(TagPairs(links[j + 1..]), k).None?
  {
    var rest := links[j + 1..];
    assert forall m :: 0 <= m < |rest| ==> rest[m] == links[j + 1 + m];
    NoKeyInTail(rest, k);
  }

  lemma {:induction false} NoKeyInTail(links: seq<Error>, k: string)
    requires forall m :: 0 <= m < |links| ==> LastValue(OwnPairs(links[m]), k).None?
    ensures LastValue(TagPairs(links), k).None?
    decreases |links|
  {
    if links != [] {
      var init := links[..|links| - 1];
      assert forall m :: 0 <= m < |init| ==> init[m] == links[m];
      NoKeyInTail(init, k);
      LastValueConcat(TagPairs(init), OwnPairs(links[|links| - 1]), k);
    }
  }

  /** The last value of a key in `a + b` is its last value in `b` when `b` has it, and in `a` otherwise. */
  lemma {:induction false} LastValueConcat(a: seq<Pair>, b: seq<Pair>, k: string)
    ensures LastValue(a + b, k) == if LastValue(b, k).Some? then LastValue(b, k) else LastValue(a, k)
    decreases |b|
  {
    if b == [] {
      assert a + b == a;
    } else {
      assert (a + b)[..|a + b| - 1] == a + b[..|b| - 1];
      LastValueConcat(a, b[..|b| - 1], k);
    }
  }

  /** Without tags anywhere in the chain the document has only the built-in fields. */
  lemma JsonWithoutTags(flags: Flags, clock: Clock, caller: Option<Caller>, text: string, wrapped: Option<Error>)
    requires forall e :: e in Chain(wrapped) ==> OwnPairs(e) == []
    ensures JsonDoc(flags, clock, caller, text, wrapped) == BaseDoc(flags, clock, caller, text, wrapped)
  {
    NoTagsAnywhere(Chain(wrapped));
  }

  /** What one call returns and the writes it makes to its sink, in order. */
  datatype Outcome = Outcome(returned: string, written: seq<string>)

  /** A JSON call: on a marshal failure the message is returned and nothing is written; otherwise
      the JSON text is returned and written once with a newline. */
  function JsonOutcome(flags: Flags, clock: Clock, caller: Option<Caller>, text: string,
                       wrapped: Option<Error>, marshal: Doc -> Option<string>): Outcome
    reads Maps(Chain(wrapped))
  {
    match marshal(JsonDoc(flags, clock, caller, text, wrapped))
    case None => Outcome(text, [])
    case Some(s) => Outcome(s, [s + "\n"])
  }

  /** Any call: `FlagJSON` selects the JSON outcome whatever the other flags; otherwise the text
      line is both written and returned. */
  function Emit(flags: Flags, prefix: string, clock: Clock, caller: Option<Caller>, text: string,
                wrapped: Option<Error>, marshal: Doc -> Option<string>): Outcome
    reads Maps(Chain(wrapped))
  {
    if flags & FlagJSON != 0 then JsonOutcome(flags, clock, caller, text, wrapped, marshal)
    else
      var s := TextLine(flags, prefix, clock, caller, text, wrapped);
      Outcome(s, [s])
  }

  /** A call writes at most once; it writes nothing only when JSON marshalling fails; what it
      writes is what it returns, plus the newline in JSON mode. */
  lemma EmitWritesOnce(flags: Flags, prefix: string, clock: Clock, caller: Option<Caller>, text: string,
                       wrapped: Option<Error>, marshal: Doc -> Option<string>)
    ensures var r := Emit(flags, prefix, clock, caller, text, wrapped, marshal);
            var failed := marshal(JsonDoc(flags, clock, caller, text, wrapped)).None?;
      && |r.written| <= 1
      && (r.written == [] <==> Has(flags, FlagJSON) && failed)
      && (!Has(flags, FlagJSON) ==> r.written == [r.returned] && HasSuffix(r.returned, "\n"))
      && (Has(flags, FlagJSON) && !failed ==> r.written == [r.returned + "\n"])
      && (Has(flags, FlagJSON) && failed ==> r.returned == text)
  {
  }

  /** With `FlagJSON` the prefix plays no part in the outcome. */
  lemma JsonIgnoresPrefix(flags: Flags, p1: string, p2: string, clock: Clock, caller: Option<Caller>,
                          text: string, wrapped: Option<Error>, marshal: Doc -> Option<string>)
    requires Has(flags, FlagJSON)
    ensures Emit(flags, p1, clock, caller, text, wrapped, marshal) == Emit(flags, p2, clock, caller, text, wrapped, marshal)
  {
  }

  /** The error of `fur.Errorf("connect: %w", root).Tag("address", "10.0.0.1:5432")` where
      `root` is the plain error "timeout", as wrapped by `Printf("open resource: %w", ...)`. */
  function ConnectError(tags: TagMap): Error {
    Tagged(FurError(Wrapping("connect: timeout", Simple("timeout")), tags))
  }

  /** The chain from that error: the fur.Error, then (its `Err` skipped) the root. */
  lemma ConnectChain(tags: TagMap)
    requires tags.entries == [("address", Str("10.0.0.1:5432"))]
    ensures Chain(Some(ConnectError(tags))) == [ConnectError(tags), Simple("timeout")]
    ensures TagPairs(Chain(Some(ConnectError(tags)))) == [("address", Str("10.0.0.1:5432"))]
  {
    var e := ConnectError(tags);
    assert Unwrap(e) == Some(Simple("timeout"));
    assert Chain(Some(Simple("timeout"))) == [Simple("timeout")];
    assert Chain(Some(e)) == [e] + [Simple("timeout")];
    TagPairsSnoc([e], Simple("timeout"));
    TagPairsSnoc([], e);
    assert [e] + [Simple("timeout")] == [e, Simple("timeout")];
  }

  /** The tagged cause shows its tag once, after the full message, in a text line:
      "open resource: connect: timeout (address=10.0.0.1:5432)\n". */
  lemma TaggedCauseLine(tags: TagMap, clock: Clock)
    requires tags.entries == [("address", Str("10.0.0.1:5432"))]
    ensures TextLine(0, "", clock, None, "open resource: connect: timeout", Some(ConnectError(tags)))
            == "open resource: connect: timeout" + " (" + "address" + "=" + "10.0.0.1:5432" + ")" + "\n"
  {
    var text := "open resource: connect: timeout";
    var k, v := "address", "10.0.0.1:5432";
    assert TextLine(0, "", clock, None, text, Some(ConnectError(tags))) == EnsureNewline("" + text + (" (" + (k + "=" + v) + ")")) by {
      ConnectChain(tags);
      OnePairSegment((k, Str(v)));
      NoFlagsHeader("", clock, None);
    }
    ClosedLine(text, k, v);
  }

  /** A line that ends with a one-pair segment " (k=v)" gets one newline added. */
  lemma ClosedLine(text: string, k: string, v: string)
    ensures EnsureNewline("" + text + (" (" + (k + "=" + v) + ")")) == text + " (" + k + "=" + v + ")" + "\n"
  {
    var body := "" + text + (" (" + (k + "=" + v) + ")");
    assert body == text + " (" + k + "=" + v + ")";
    assert !HasSuffix(body, "\n") by {
      assert body[|body| - 1] == ')';
    }
  }

  /** One pair alone makes the segment " (k=v)". */
  lemma OnePairSegment(p: Pair)
    ensures Segment([p]) == " (" + PairText(p) + ")"
  {
    OpenedSnoc([], p);
    assert [] + [p] == [p];
  }

  /** Without flags the header is just the prefix. */
  lemma NoFlagsHeader(prefix: string, clock: Clock, caller: Option<Caller>)
    ensures Header(0, prefix, clock, caller) == prefix
  {
    assert "" + prefix + "" == prefix;
  }

  /** The same call in JSON mode: the message, level "error" and the tag at top level. */
  lemma TaggedCauseDocument(tags: TagMap, clock: Clock)
    requires tags.entries == [("address", Str("10.0.0.1:5432"))]
    ensures JsonDoc(FlagJSON, clock, None, "open resource: connect: timeout", Some(ConnectError(tags)))
            == map["message" := Str("open resource: connect: timeout"), "level" := Str("error"),
                   "address" := Str("10.0.0.1:5432")]
  {
    var ps := [("address", Str("10.0.0.1:5432"))];
    ConnectChain(tags);
    var base := BaseDoc(FlagJSON, clock, None, "open resource: connect: timeout", Some(ConnectError(tags)));
    assert base == map["message" := Str("open resource: connect: timeout"), "level" := Str("error")];
    AssignSnoc(base, [], ps[0]);
    assert [] + [ps[0]] == ps;
  }

  /** A message without a cause: the text line is the message and a newline, and the document
      has only the message and level "info". */
  lemma PlainMessage(clock: Clock)
    ensures TextLine(0, "", clock, None, "plain message", None) == "plain message\n"
    ensures JsonDoc(FlagJSON, clock, None, "plain message", None)
            == map["message" := Str("plain message"), "level" := Str("info")]
  {
  }
}
