/** The text side of the long-poll watcher (coordinator.py:319-356): how a
    notification reply is cut into JSON fragments, how each decoded event
    moves the watermark, and the clamp applied before each hold. */
module LongPoll {
  import opened Wrappers
  import opened Json
  import opened PyText

  /** The first index at or after `i` that does not hold whitespace. */
  function SkipSpaces(t: string, i: nat): (k: nat)
    requires i <= |t|
    ensures i <= k <= |t|
    ensures forall m :: i <= m < k ==> IsSpace(t[m])
    ensures k == |t| || !IsSpace(t[k])
    decreases |t| - i
  {
    if i < |t| && IsSpace(t[i]) then SkipSpaces(t, i + 1) else i
  }

  /** `SkipSpaces` is the first non-whitespace position. */
  lemma SkipSpacesUnique(t: string, i: nat, k: nat)
    requires i <= k <= |t|
    requires forall m :: i <= m < k ==> IsSpace(t[m])
    requires k == |t| || !IsSpace(t[k])
    ensures SkipSpaces(t, i) == k
  {
  }

  /** A text that the pattern `}\s*{` matches in full. */
  predicate IsSeparator(s: string) {
    && |s| >= 2 && s[0] == '}' && s[|s| - 1] == '{'
    && forall m :: 0 < m < |s| - 1 ==> IsSpace(s[m])
  }

  /** The end of the match of `}\s*{` that starts at `i`, if there is one.
      The greedy `\s*` never has to give anything back, since `{` is not
      whitespace. */
  function MatchAt(t: string, i: nat): (r: Option<nat>)
    requires i <= |t|
    ensures r.Some? ==> i + 2 <= r.value <= |t| && IsSeparator(t[i..r.value])
    ensures forall e :: i <= e <= |t| && IsSeparator(t[i..e]) ==> r == Some(e)
  {
    if i < |t| && t[i] == '}' then
      var k := SkipSpaces(t, i + 1);
      forall e | i <= e <= |t| && IsSeparator(t[i..e]) ensures k == e - 1 {
        assert t[e - 1] == t[i..e][e - 1 - i];
      }
      if k < |t| && t[k] == '{' then Some(k + 1) else None
    else None
  }

  /** No match of `}\s*{` starts anywhere in `s`. */
  predicate NoSeparator(s: string) {
    forall m :: 0 <= m < |s| ==> MatchAt(s, m).None?
  }

  /** A text holds no match exactly when none of its slices is a full
      match of `}\s*{`. */
  lemma NoSeparatorIff(s: string)
    ensures NoSeparator(s) <==> forall a, b :: 0 <= a <= b <= |s| ==> !IsSeparator(s[a..b])
  {
    if !NoSeparator(s) {
      var m :| 0 <= m < |s| && MatchAt(s, m).Some?;
      assert IsSeparator(s[m..MatchAt(s, m).value]);
    } else {
      forall a, b | 0 <= a <= b <= |s| ensures !IsSeparator(s[a..b]) {
        if a < |s| {
          assert MatchAt(s, a).None?;
        }
      }
    }
  }

  /** What `re.split` returns (the pieces) and what it cut out (the
      separators). */
  datatype Parts = Parts(pieces: seq<string>, seps: seq<string>)

  /** `re.split(r"}\s*{", t[start..])`, with the search resumed at `i`. */
  function SplitFrom(t: string, start: nat, i: nat): (r: Parts)
    requires start <= i <= |t|
    ensures |r.pieces| == |r.seps| + 1
    decreases |t| - i
  {
    if i == |t| then Parts([t[start..]], [])
    else match MatchAt(t, i)
      case Some(e) =>
        var rest := SplitFrom(t, e, e);
        Parts([t[start..i]] + rest.pieces, [t[i..e]] + rest.seps)
      case None => SplitFrom(t, start, i + 1)
  }

  /** `re.split(r"}\s*{", t)` */
  function Split(t: string): (r: Parts)
    ensures |r.pieces| == |r.seps| + 1
  {
    SplitFrom(t, 0, 0)
  }

  /** Pieces and separators alternately, a piece first and last. */
  function Interleave(pieces: seq<string>, seps: seq<string>): string
    requires |pieces| == |seps| + 1
  {
    if seps == [] then pieces[0] else pieces[0] + seps[0] + Interleave(pieces[1..], seps[1..])
  }

  /** A position of a slice that starts no match in the whole text starts
      none in the slice either. */
  lemma NoMatchInSlice(t: string, start: nat, i: nat, m: nat)
    requires start <= m < i <= |t|
    requires MatchAt(t, m).None?
    ensures MatchAt(t[start..i], m - start).None?
  {
    var p := t[start..i];
    var m' := m - start;
    if p[m'] == '}' {
      var k := SkipSpaces(t, m + 1);
      var k' := SkipSpaces(p, m' + 1);
      if k < i {
        assert p[k - start] == t[k];
        assert k' == k - start;
      }
    }
  }

  /** A slice none of whose positions starts a match in the whole text
      holds no match. */
  lemma NoSeparatorInSlice(t: string, start: nat, i: nat)
    requires start <= i <= |t|
    requires forall m :: start <= m < i ==> MatchAt(t, m).None?
    ensures NoSeparator(t[start..i])
  {
    forall m | 0 <= m < i - start ensures MatchAt(t[start..i], m).None? {
      NoMatchInSlice(t, start, i, m + start);
    }
  }

  /** `re.split` loses nothing: pieces and separators put back together
      give the text; every separator is a full match of `}\s*{`; no piece
      holds a match.  These three facts determine the split. */
  lemma {:induction false} SplitFromFacts(t: string, start: nat, i: nat)
    requires start <= i <= |t|
    requires forall m :: start <= m < i ==> MatchAt(t, m).None?
    ensures Interleave(SplitFrom(t, start, i).pieces, SplitFrom(t, start, i).seps) == t[start..]
    ensures forall s :: s in SplitFrom(t, start, i).seps ==> IsSeparator(s)
    ensures forall p :: p in SplitFrom(t, start, i).pieces ==> NoSeparator(p)
    decreases |t| - i
  {
    var r := SplitFrom(t, start, i);
    if i == |t| {
      NoSeparatorInSlice(t, start, i);
      assert t[start..i] == t[start..];
    } else {
      match MatchAt(t, i)
      case Some(e) =>
        SplitFromFacts(t, e, e);
        var rest := SplitFrom(t, e, e);
        assert r.pieces[1..] == rest.pieces && r.seps[1..] == rest.seps;
        assert t[start..] == t[start..i] + t[i..e] + t[e..];
        NoSeparatorInSlice(t, start, i);
      case None =>
        SplitFromFacts(t, start, i + 1);
    }
  }

  lemma SplitFacts(t: string)
    ensures Interleave(Split(t).pieces, Split(t).seps) == t
    ensures forall s :: s in Split(t).seps ==> IsSeparator(s)
    ensures forall p :: p in Split(t).pieces ==> NoSeparator(p)
  {
    SplitFromFacts(t, 0, 0);
  }

  /** A fragment re-bracketed as the watcher does it: `{` put in front
      unless it starts with one, then `}` put after unless it ends with
      one. */
  function Rebracket(p: string): (c: string)
    ensures |c| >= 2 && c[0] == '{' && c[|c| - 1] == '}'
    ensures |p| >= 2 && p[0] == '{' && p[|p| - 1] == '}' ==> c == p
  {
    var a := if |p| > 0 && p[0] == '{' then p else "{" + p;
    if a[|a| - 1] == '}' then a else a + "}"
  }

  /** The non-empty pieces, re-bracketed, in order. */
  function Fragments(pieces: seq<string>): (cs: seq<string>)
    ensures forall c :: c in cs ==> |c| >= 2 && c[0] == '{' && c[|c| - 1] == '}'
    ensures |cs| <= |pieces|
  {
    if pieces == [] then []
    else (if pieces[0] == [] then [] else [Rebracket(pieces[0])]) + Fragments(pieces[1..])
  }

  /** The fragments the watcher hands to `json.loads` for a reply `raw`:
      none when the reply is blank, and each one braced. */
  function Chunks(raw: string): (cs: seq<string>)
    ensures forall c :: c in cs ==> |c| >= 2 && c[0] == '{' && c[|c| - 1] == '}'
    ensures (forall i :: 0 <= i < |raw| ==> IsSpace(raw[i])) ==> cs == []
  {
    var t := Strip(raw);
    var pieces := Split(t).pieces;
    assert t == [] ==> pieces == [[]] && Fragments(pieces) == [];
    Fragments(pieces)
  }

  lemma {:induction false} SplitFromSkips(t: string, start: nat, i: nat, j: nat)
    requires start <= i <= j <= |t|
    requires forall m :: i <= m < j ==> MatchAt(t, m).None?
    ensures SplitFrom(t, start, i) == SplitFrom(t, start, j)
    decreases j - i
  {
    if i < j {
      SplitFromSkips(t, start, i + 1, j);
    }
  }

  /** Two fragments written back to back, `a}{b`, are cut apart, provided
      neither holds a match of its own. */
  lemma SplitAdjacent(a: string, b: string)
    requires NoSeparator(a) && NoSeparator(b)
    ensures Split(a + "}{" + b).pieces == [a, b]
  {
    var t := a + "}{" + b;
    var e := |a| + 2;
    assert t[|a|] == '}' && t[|a| + 1] == '{';
    forall m | 0 <= m < |a| ensures MatchAt(t, m).None? {
      NoMatchBeforeCut(a, b, m);
    }
    SplitFromSkips(t, 0, 0, |a|);
    assert SkipSpaces(t, |a| + 1) == |a| + 1;
    assert MatchAt(t, |a|) == Some(e);
    assert t[e..] == b;
    forall m | e <= m < |t| ensures MatchAt(t, m).None? {
      NoMatchAfterCut(a, b, m);
    }
    SplitFromSkips(t, e, e, |t|);
    assert t[..|a|] == a;
  }

  /** No match starts inside `a` in `a}{b`: one starting there would end
      inside `a`, since the `}` of the cut is not whitespace. */
  lemma NoMatchBeforeCut(a: string, b: string, m: nat)
    requires NoSeparator(a) && m < |a|
    ensures MatchAt(a + "}{" + b, m).None?
  {
    var t := a + "}{" + b;
    assert t[m] == a[m];
    if a[m] == '}' {
      var k := SkipSpaces(a, m + 1);
      assert MatchAt(a, m).None?;
      assert forall j :: m + 1 <= j < k ==> t[j] == a[j];
      assert t[|a|] == '}';
      if k < |a| { assert t[k] == a[k]; }
      SkipSpacesUnique(t, m + 1, k);
    }
  }

  /** No match starts inside `b` in `a}{b`. */
  lemma NoMatchAfterCut(a: string, b: string, m: nat)
    requires NoSeparator(b) && |a| + 2 <= m < |a| + 2 + |b|
    ensures MatchAt(a + "}{" + b, m).None?
  {
    var t := a + "}{" + b;
    var e := |a| + 2;
    assert t[m] == b[m - e];
    if b[m - e] == '}' {
      var k := SkipSpaces(b, m - e + 1);
      assert MatchAt(b, m - e).None?;
      assert forall j :: m + 1 <= j < k + e ==> t[j] == b[j - e];
      if k < |b| { assert t[k + e] == b[k]; }
      SkipSpacesUnique(t, m + 1, k + e);
    }
  }

  /** A reply holding two objects back to back, `{...}{...}`, gives two
      fragments, each one of the objects again. */
  lemma ChunksOfAdjacent(a: string, b: string)
    requires |a| > 0 && a[0] == '{' && a[|a| - 1] != '}'
    requires |b| > 0 && b[0] != '{' && b[|b| - 1] == '}'
    requires NoSeparator(a) && NoSeparator(b)
    ensures Chunks(a + "}{" + b) == [a + "}", "{" + b]
  {
    var raw := a + "}{" + b;
    assert raw[0] == a[0] && raw[|raw| - 1] == b[|b| - 1];
    ChunksOfBraced(raw);
    SplitAdjacent(a, b);
    RebracketBoth(a, b);
    FragmentsOfTwo(a, b);
  }

  /** A reply that starts with `{` and ends with `}` is split as it is. */
  lemma ChunksOfBraced(raw: string)
    requires |raw| > 0 && raw[0] == '{' && raw[|raw| - 1] == '}'
    ensures Chunks(raw) == Fragments(Split(raw).pieces)
  {
    assert Strip(raw) == raw;
  }

  /** Re-bracketing adds the brace each side of the cut lost. */
  lemma RebracketBoth(a: string, b: string)
    requires |a| > 0 && a[0] == '{' && a[|a| - 1] != '}'
    requires |b| > 0 && b[0] != '{' && b[|b| - 1] == '}'
    ensures Rebracket(a) == a + "}" && Rebracket(b) == "{" + b
  {
    assert ("{" + b)[|b|] == '}';
  }

  /** Two non-empty pieces give two fragments. */
  lemma FragmentsOfTwo(a: string, b: string)
    requires a != [] && b != []
    ensures Fragments([a, b]) == [Rebracket(a), Rebracket(b)]
  {
    assert [a, b][1..] == [b];
    assert Fragments([b]) == [Rebracket(b)] + Fragments([]);
  }

  /** A reply carrying two events, the first naming peripheral 5, gives
      the two events as two fragments. */
  lemma TwoEventsTwoChunks(a: string, b: string)
    requires a == "{\"Timestamp\":100,\"PeripheralList\":[5]"
    requires b == "\"Timestamp\":101}"
    ensures Chunks(a + "}{" + b) == [a + "}", "{" + b]
  {
    assert forall m :: 0 <= m < |a| ==> a[m] != '}';
    assert forall m :: 0 <= m < |b| - 1 ==> b[m] != '}';
    ChunksOfAdjacent(a, b);
  }

  /** A text whose only `}` are at its end holds no match: after each of
      them comes another `}` or nothing. */
  lemma ClosesOnlyAtEnd(s: string, k: nat)
    requires k <= |s|
    requires forall m :: 0 <= m < k ==> s[m] != '}'
    requires forall m :: k <= m < |s| ==> s[m] == '}'
    ensures NoSeparator(s)
  {
    forall m | 0 <= m < |s| ensures MatchAt(s, m).None? {
      if m >= k {
        SkipSpacesUnique(s, m + 1, m + 1);
      }
    }
  }

  /** An event whose last value is an object keeps the `}` before the cut,
      so the re-bracketing gives it no closing brace of its own: the first
      fragment of `{"a":{"b":1}}{"c":2}` is `{"a":{"b":1}`, which does not
      decode, and the event is lost. */
  lemma NestedEventLosesBrace(a: string, b: string)
    requires a == "{\"a\":{\"b\":1}" && b == "\"c\":2}"
    ensures Chunks(a + "}{" + b) == [a, "{" + b]
  {
    ClosesOnlyAtEnd(a, |a| - 1);
    ClosesOnlyAtEnd(b, |b| - 1);
    var raw := a + "}{" + b;
    assert raw[0] == a[0] && raw[|raw| - 1] == b[|b| - 1];
    ChunksOfBraced(raw);
    SplitAdjacent(a, b);
    FragmentsOfTwo(a, b);
    assert ("{" + b)[|b|] == '}';
  }

  /** The re-bracketing the watcher evidently intends: every piece gets
      back the braces the cut took from it (a `}` unless it is the last
      piece, a `{` unless it is the first), and the two ends of the reply
      are braced as before. */
  function RebracketAt(p: string, first: bool, last: bool): (c: string)
    ensures |c| >= 2 && c[0] == '{' && c[|c| - 1] == '}'
    ensures !first && !last ==> c == "{" + p + "}"
    ensures first && |p| > 0 && p[0] == '{' && !last ==> c == p + "}"
    ensures last && |p| > 0 && p[|p| - 1] == '}' && !first ==> c == "{" + p
  {
    var a := if first && |p| > 0 && p[0] == '{' then p else "{" + p;
    assert !first && |p| > 0 ==> a[|a| - 1] == p[|p| - 1];
    if last && a[|a| - 1] == '}' then a else a + "}"
  }

  /** The non-empty pieces from index `j` on, re-bracketed by position. */
  function FragmentsFrom(pieces: seq<string>, j: nat): (cs: seq<string>)
    requires j <= |pieces|
    ensures forall c :: c in cs ==> |c| >= 2 && c[0] == '{' && c[|c| - 1] == '}'
    ensures |cs| <= |pieces| - j
    decreases |pieces| - j
  {
    if j == |pieces| then []
    else
      (if pieces[j] == [] then [] else [RebracketAt(pieces[j], j == 0, j == |pieces| - 1)])
      + FragmentsFrom(pieces, j + 1)
  }

  /** The fragments of a reply with the intended re-bracketing. */
  function ChunksIntended(raw: string): (cs: seq<string>)
    ensures forall c :: c in cs ==> |c| >= 2 && c[0] == '{' && c[|c| - 1] == '}'
    ensures (forall i :: 0 <= i < |raw| ==> IsSpace(raw[i])) ==> cs == []
  {
    var t := Strip(raw);
    var pieces := Split(t).pieces;
    assert t == [] ==> pieces == [[]] && FragmentsFrom(pieces, 0) == [];
    FragmentsFrom(pieces, 0)
  }

  /** Two non-empty pieces, re-bracketed by position. */
  lemma FragmentsFromTwo(a: string, b: string)
    requires a != [] && b != []
    ensures FragmentsFrom([a, b], 0) == [RebracketAt(a, true, false), RebracketAt(b, false, true)]
  {
    assert FragmentsFrom([a, b], 2) == [];
    assert FragmentsFrom([a, b], 1) == [RebracketAt(b, false, true)];
  }

  /** Two events written back to back are cut between them. */
  lemma SplitTwoEvents(x: string, y: string)
    requires NoSeparator("{" + x + "}") && NoSeparator("{" + y + "}")
    ensures Split("{" + x + "}" + "{" + y + "}").pieces == ["{" + x, y + "}"]
  {
    var ex, ey := "{" + x + "}", "{" + y + "}";
    var a, b := "{" + x, y + "}";
    assert "{" + x + "}" + "{" + y + "}" == a + "}{" + b;
    NoSeparatorInSlice(ex, 0, |a|);
    assert ex[0..|a|] == a;
    NoSeparatorInSlice(ey, 1, |ey|);
    assert ey[1..|ey|] == b;
    SplitAdjacent(a, b);
  }

  /** A reply that starts with `{` and ends with `}` is split as it is. */
  lemma ChunksIntendedOfBraced(raw: string)
    requires |raw| > 0 && raw[0] == '{' && raw[|raw| - 1] == '}'
    ensures ChunksIntended(raw) == FragmentsFrom(Split(raw).pieces, 0)
  {
    StripBraced(raw);
  }

  /** With the intended re-bracketing, two events written back to back
      come back as the two events, whatever they end with. */
  lemma ChunksIntendedRoundTrip(x: string, y: string)
    requires NoSeparator("{" + x + "}") && NoSeparator("{" + y + "}")
    ensures ChunksIntended("{" + x + "}" + "{" + y + "}") == ["{" + x + "}", "{" + y + "}"]
  {
    var raw := "{" + x + "}" + "{" + y + "}";
    var a, b := "{" + x, y + "}";
    assert raw[0] == '{' && raw[|raw| - 1] == '}';
    ChunksIntendedOfBraced(raw);
    SplitTwoEvents(x, y);
    FragmentsFromTwo(a, b);
    assert a[0] == '{' && b[|b| - 1] == '}';
    assert RebracketAt(a, true, false) == "{" + x + "}";
    assert RebracketAt(b, false, true) == "{" + y + "}";
  }

  /** A text that starts with `{` and ends with `}` is left alone by
      `strip`. */
  lemma StripBraced(raw: string)
    requires |raw| > 0 && raw[0] == '{' && raw[|raw| - 1] == '}'
    ensures Strip(raw) == raw
  {
  }

  /** The reply that loses its first event as written gives both events
      with the intended re-bracketing. */
  lemma NestedEventKeptIntended(x: string, y: string)
    requires x == "\"a\":{\"b\":1}" && y == "\"c\":2"
    ensures ChunksIntended("{" + x + "}" + "{" + y + "}") == ["{" + x + "}", "{" + y + "}"]
  {
    ClosesOnlyAtEnd("{" + x + "}", |x|);
    ClosesOnlyAtEnd("{" + y + "}", |y| + 1);
    ChunksIntendedRoundTrip(x, y);
  }

  /** Above this a reading is taken to be in milliseconds. */
  const MillisecondsCutoff: int := 10_000_000_000

  /** `int(v)` of a numeric `Status`/`Timestamp` reading after the
      millisecond rule (`bool` is a number in Python); `cur` for anything
      else. */
  function Reading(cur: int, v: Json): (w: int)
    ensures !IsNumber(v) ==> w == cur
  {
    match v
    case JBool(b) => if b then 1 else 0
    case JInt(n) => if n > MillisecondsCutoff then n / 1000 else n
    case JFloat(r) => if r > MillisecondsCutoff as real then Trunc(r / 1000.0) else Trunc(r)
    case _ => cur
  }

  predicate IsNumber(v: Json) {
    v.JBool? || v.JInt? || v.JFloat?
  }

  /** The reading an event offers: `Status`, or `Timestamp` when `Status`
      is falsy or absent. */
  function EventReading(event: Object): (r: Json)
    ensures Truthy(Get(event, "Status")) ==> r == Get(event, "Status")
    ensures !Truthy(Get(event, "Status")) ==> r == Get(event, "Timestamp")
  {
    Or(Get(event, "Status"), Get(event, "Timestamp"))
  }

  /** The watermark after one decoded event. */
  function NextWatermark(cur: int, event: Object): (w: int)
    ensures !IsNumber(EventReading(event)) ==> w == cur
    ensures Truthy(Get(event, "Status")) ==> w == Reading(cur, Get(event, "Status"))
    ensures !Truthy(Get(event, "Status")) ==> w == Reading(cur, Get(event, "Timestamp"))
  {
    Reading(cur, EventReading(event))
  }

  /** The number a numeric reading stands for (`True` is 1). */
  function NumberValue(v: Json): real
    requires IsNumber(v)
  {
    match v
    case JBool(b) => if b then 1.0 else 0.0
    case JInt(n) => n as real
    case JFloat(r) => r
  }

  /** Every numeric reading, integer or float, is `int(v / 1000)` above
      the cutoff and `int(v)` otherwise. */
  lemma {:induction false} ReadingIsTruncated(cur: int, v: Json)
    requires IsNumber(v)
    ensures var x := NumberValue(v);
      Reading(cur, v) == Trunc(if x > MillisecondsCutoff as real then x / 1000.0 else x)
  {
    match v
    case JBool(b) =>
    case JFloat(r) =>
    case JInt(n) =>
      var x := n as real;
      if n > MillisecondsCutoff {
        var q := n / 1000;
        assert q * 1000 <= n < q * 1000 + 1000;
        assert q as real <= x / 1000.0 < q as real + 1.0;
        TruncUnique(x / 1000.0, q);
      } else {
        TruncUnique(x, n);
      }
  }

  /** `Trunc` gives the one integer within a unit of `r` on the side of
      zero: at or below a non-negative number, at or above a negative one. */
  lemma TruncUnique(r: real, k: int)
    requires r >= 0.0 ==> k as real <= r < k as real + 1.0
    requires r < 0.0 ==> k as real - 1.0 < r <= k as real
    ensures Trunc(r) == k
  {
  }

  /** A millisecond reading and the same instant in seconds give the same
      watermark. */
  lemma {:induction false} MillisecondsAgree(cur: int, s: int, ms: int)
    requires MillisecondsCutoff / 1000 < s <= MillisecondsCutoff && 0 <= ms < 1000
    ensures Reading(cur, JInt(s * 1000 + ms)) == Reading(cur, JInt(s)) == s
  {
    assert s * 1000 + ms > MillisecondsCutoff;
    assert (s * 1000 + ms) / 1000 == s;
  }

  /** The fragments `parse` (standing for `json.loads`) accepts, decoded,
      in order; the others are skipped. */
  function Events(chunks: seq<string>, parse: string -> Option<Object>): (es: seq<Object>)
    ensures |es| <= |chunks|
    decreases |chunks|
  {
    if chunks == [] then []
    else
      Events(chunks[..|chunks| - 1], parse) +
      (match parse(chunks[|chunks| - 1]) case None => [] case Some(o) => [o])
  }

  /** Every fragment decoded gives one event each; none decoded gives no
      event. */
  lemma {:induction false} EventsAllOrNone(chunks: seq<string>, parse: string -> Option<Object>)
    ensures (forall i :: 0 <= i < |chunks| ==> parse(chunks[i]).Some?) ==> |Events(chunks, parse)| == |chunks|
    ensures (forall i :: 0 <= i < |chunks| ==> parse(chunks[i]).None?) ==> Events(chunks, parse) == []
    decreases |chunks|
  {
    if chunks != [] {
      var front := chunks[..|chunks| - 1];
      assert forall i :: 0 <= i < |front| ==> front[i] == chunks[i];
      EventsAllOrNone(front, parse);
    }
  }

  /** Decoding fragments one list after another decodes the two lists. */
  lemma {:induction false} EventsAppend(a: seq<string>, b: seq<string>, parse: string -> Option<Object>)
    ensures Events(a + b, parse) == Events(a, parse) + Events(b, parse)
    decreases |b|
  {
    if b == [] {
      assert a + b == a;
    } else {
      var c, front := a + b, b[..|b| - 1];
      var tail := match parse(b[|b| - 1]) case None => [] case Some(o) => [o];
      assert Events(c, parse) == Events(a + front, parse) + tail by {
        assert c[..|c| - 1] == a + front && c[|c| - 1] == b[|b| - 1];
      }
      EventsAppend(a, front, parse);
    }
  }

  /** The watermark after a run of decoded events, in order; events
      without a number leave it where it was. */
  function WatermarkAfter(w: int, events: seq<Object>): (r: int)
    ensures (forall i :: 0 <= i < |events| ==> !IsNumber(EventReading(events[i]))) ==> r == w
    decreases |events|
  {
    if events == [] then w
    else
      var front := events[..|events| - 1];
      assert forall i :: 0 <= i < |front| ==> front[i] == events[i];
      NextWatermark(WatermarkAfter(w, front), events[|events| - 1])
  }

  /** One more fragment moves the watermark when, and only when, it
      decodes. */
  lemma WatermarkNextChunk(w: int, chunks: seq<string>, i: nat, parse: string -> Option<Object>)
    requires i < |chunks|
    ensures WatermarkAfter(w, Events(chunks[..i + 1], parse)) ==
      match parse(chunks[i])
      case None => WatermarkAfter(w, Events(chunks[..i], parse))
      case Some(e) => NextWatermark(WatermarkAfter(w, Events(chunks[..i], parse)), e)
  {
    var c := chunks[..i + 1];
    assert c[..|c| - 1] == chunks[..i] && c[|c| - 1] == chunks[i];
    var es := Events(chunks[..i], parse);
    match parse(chunks[i])
    case None =>
      assert Events(c, parse) == es;
    case Some(e) =>
      assert Events(c, parse) == es + [e];
      assert (es + [e])[..|es|] == es;
  }

  /** The watermark is assigned, never compared: the last event carrying a
      number decides it, whatever came before. */
  lemma LastReadingWins(w: int, w': int, events: seq<Object>)
    requires events != [] && IsNumber(EventReading(events[|events| - 1]))
    ensures WatermarkAfter(w, events) == WatermarkAfter(w', events)
  {
  }

  /** Nothing keeps the watermark from moving back: an event stamped a
      second earlier than the current watermark moves it there. */
  lemma WatermarkCanMoveBack(cur: int)
    requires cur <= MillisecondsCutoff
    ensures NextWatermark(cur, [Field("Timestamp", JInt(cur - 1))]) == cur - 1
  {
    assert Get([Field("Timestamp", JInt(cur - 1))], "Status") == JNull;
  }

  /** The clamp before each hold: a watermark more than a second behind
      `now` is raised to `now`. */
  function ClampWatermark(ts: int, now: int): (w: int)
    ensures w >= now - 1 && w >= ts
    ensures w == ts || w == now
    ensures ts >= now - 1 ==> w == ts
  {
    if ts < now - 1 then now else ts
  }

  /** Clamping twice at the same instant is clamping once. */
  lemma ClampIdempotent(ts: int, now: int)
    ensures ClampWatermark(ClampWatermark(ts, now), now) == ClampWatermark(ts, now)
  {
  }
}
