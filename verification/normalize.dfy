/** The point normaliser of `helpers.py`: raw price records (dictionaries with
    optional keys) are filtered, converted to `Point`s and sorted by start time.
    Library parsers (JSON decoding, ISO-8601 date-times, `float()` of a string)
    are opaque oracle functions bundled in `Parsers`. */
module Normalize {
  import opened Optional
  import opened RealMath
  import opened Helpers

  /** Epoch numbers above this are already milliseconds; the rest are seconds. */
  const MS_THRESHOLD: real := 10_000_000_000.0

  /** A dictionary value as the normaliser sees it: Python `None`, a `bool`
      (a subclass of `int`), an `int`, a `float`, a `str`, a time-zone aware
      `datetime` (carrying its UTC epoch milliseconds) or anything else. */
  datatype Val = Null | Bool(b: bool) | Int(i: int) | Float(f: real) | Str(s: string)
               | DateTime(epochMs: int) | Other

  /** The keys of a raw record that the normaliser reads; `None` is a missing key. */
  datatype Record = Record(value: Option<Val>, price: Option<Val>,
                           startTs: Option<Val>, endTs: Option<Val>,
                           start: Option<Val>, end: Option<Val>)

  /** An element of a raw list: a dictionary or something else. */
  datatype Item = Dict(rec: Record) | NotDict

  /** The raw attribute: `None`, a list, a JSON string, or anything else. */
  datatype Raw = RawNone | RawList(items: seq<Item>) | RawText(text: string) | RawOther

  /** Library parsers: `parse_datetime` followed by conversion to UTC milliseconds,
      `float()` on a string, and `json.loads` yielding a list (`None` when it raises
      or yields a non-list). */
  datatype Parsers = Parsers(isoToMs: string -> Option<int>,
                             parseFloat: string -> Option<real>,
                             decodeJson: string -> Option<seq<Item>>)

  /** `dict.get(key)`: a missing key reads as `None`. */
  function Get(field: Option<Val>): Val
  {
    field.GetOr(Null)
  }

  /** Whitespace removed by `str.strip()` (the ASCII part of it). */
  predicate IsSpace(c: char)
  {
    c == ' ' || 9 <= c as int <= 13 || 28 <= c as int <= 31
  }

  function TrimLeft(s: string): (r: string)
    ensures |r| <= |s| && r == s[|s| - |r|..]
    ensures |r| == 0 || !IsSpace(r[0])
    ensures forall k :: 0 <= k < |s| - |r| ==> IsSpace(s[k])
  {
    if |s| > 0 && IsSpace(s[0]) then TrimLeft(s[1..]) else s
  }

  function TrimRight(s: string): (r: string)
    ensures |r| <= |s| && r == s[..|r|]
    ensures |r| == 0 || !IsSpace(r[|r| - 1])
    ensures forall k :: |r| <= k < |s| ==> IsSpace(s[k])
  {
    if |s| > 0 && IsSpace(s[|s| - 1]) then TrimRight(s[..|s| - 1]) else s
  }

  /** `str.strip()`: no leading or trailing whitespace remains, and only
      whitespace was removed. */
  function Strip(s: string): (r: string)
    ensures |r| == 0 || (!IsSpace(r[0]) && !IsSpace(r[|r| - 1]))
    ensures |r| == 0 <==> forall k :: 0 <= k < |s| ==> IsSpace(s[k])
    ensures exists i, j :: StrippedAt(s, r, i, j)
  {
    StripFacts(s);
    StripEnds(s);
    StripSlice(s);
    TrimRight(TrimLeft(s))
  }

  /** Trimming both ends leaves a slice of the input with only whitespace around it. */
  lemma StripSlice(s: string)
    ensures var i := |s| - |TrimLeft(s)|;
      StrippedAt(s, TrimRight(TrimLeft(s)), i, i + |TrimRight(TrimLeft(s))|)
  {
    StripIsSlice(s);
    StripTailIsSpace(s);
  }

  /** What remains after trimming is the slice between the two trimmed ends. */
  lemma StripIsSlice(s: string)
    ensures var i := |s| - |TrimLeft(s)|;
      TrimRight(TrimLeft(s)) == s[i..i + |TrimRight(TrimLeft(s))|]
  {
    var l := TrimLeft(s);
    var r := TrimRight(l);
    var i := |s| - |l|;
    assert l == s[i..] && r == l[..|r|];
  }

  /** Everything after the remaining slice is whitespace. */
  lemma StripTailIsSpace(s: string)
    ensures forall k :: |s| - |TrimLeft(s)| + |TrimRight(TrimLeft(s))| <= k < |s| ==> IsSpace(s[k])
  {
    SpaceAfterSuffix(s, TrimLeft(s), TrimRight(TrimLeft(s)));
  }

  /** Whitespace at the end of a suffix `l` of `s`, behind its first `|r|` characters, is
      whitespace at the end of `s`. */
  lemma SpaceAfterSuffix(s: string, l: string, r: string)
    requires |l| <= |s| && l == s[|s| - |l|..]
    requires |r| <= |l| && forall k :: |r| <= k < |l| ==> IsSpace(l[k])
    ensures forall k :: |s| - |l| + |r| <= k < |s| ==> IsSpace(s[k])
  {
    var i := |s| - |l|;
    forall k | i + |r| <= k < |s|
      ensures IsSpace(s[k])
    {
      assert s[k] == l[k - i];
    }
  }

  /** `r` is `s[i..j]` and everything outside that slice is whitespace. */
  predicate StrippedAt(s: string, r: string, i: int, j: int)
  {
    && 0 <= i <= j <= |s| && r == s[i..j]
    && (forall k :: 0 <= k < i ==> IsSpace(s[k]))
    && (forall k :: j <= k < |s| ==> IsSpace(s[k]))
  }

  /** Trimming empties a string exactly when it is all whitespace. */
  lemma StripFacts(s: string)
    ensures |TrimRight(TrimLeft(s))| == 0 <==> forall k :: 0 <= k < |s| ==> IsSpace(s[k])
  {
    var l := TrimLeft(s);
    assert |l| > 0 ==> l[0] == s[|s| - |l|];
    assert |TrimRight(l)| == 0 ==> |l| == 0;
  }

  /** Neither end of a trimmed non-empty string is whitespace. */
  lemma StripEnds(s: string)
    ensures var r := TrimRight(TrimLeft(s));
      |r| == 0 || (!IsSpace(r[0]) && !IsSpace(r[|r| - 1]))
  {
    var l := TrimLeft(s);
    var r := TrimRight(l);
    assert |r| > 0 ==> r[0] == l[0];
  }

  /** The numeric branch of `_to_ts_ms`: above the threshold the number is taken as
      milliseconds, otherwise as seconds and scaled by 1000; `int()` truncates toward zero. */
  function EpochToMs(n: real): (r: int)
    ensures n > MS_THRESHOLD ==> r as real <= n < r as real + 1.0
    ensures 0.0 <= n <= MS_THRESHOLD ==> r as real <= n * 1000.0 < r as real + 1.0
    ensures n < 0.0 ==> r as real - 1.0 < n * 1000.0 <= r as real
  {
    if n > MS_THRESHOLD then Trunc(n) else Trunc(n * 1000.0)
  }

  /** Whole epoch seconds up to the threshold become exact milliseconds. */
  lemma EpochSecondsScaled(sec: int)
    requires sec as real <= MS_THRESHOLD
    ensures EpochToMs(sec as real) == sec * 1000
  {
    var n := sec as real;
    assert n * 1000.0 == (sec * 1000) as real;
  }

  /** Whole epoch milliseconds above the threshold are kept unchanged. */
  lemma EpochMillisKept(ms: int)
    requires ms as real > MS_THRESHOLD
    ensures EpochToMs(ms as real) == ms
  {
  }

  /** `_to_ts_ms`: a timestamp in UTC epoch milliseconds, or `None` when the value is
      missing, an empty or unparseable string, or of another type. */
  function ToTsMs(v: Val, ps: Parsers): (r: Option<int>)
    ensures v.Null? || v.Other? ==> r.None?
    ensures v.DateTime? ==> r == Some(v.epochMs)
    ensures v.Int? ==> r == Some(EpochToMs(v.i as real))
    ensures v.Float? ==> r == Some(EpochToMs(v.f))
    ensures v.Bool? ==> r == Some(if v.b then 1000 else 0)
    ensures v.Str? && r.Some? ==> exists k :: 0 <= k < |v.s| && !IsSpace(v.s[k])
    ensures v.Str? && (exists k :: 0 <= k < |v.s| && !IsSpace(v.s[k])) ==> r == ps.isoToMs(Strip(v.s))
  {
    match v
    case Null => None
    case DateTime(ms) => Some(ms)
    case Bool(b) => Some(EpochToMs(if b then 1.0 else 0.0))
    case Int(i) => Some(EpochToMs(i as real))
    case Float(f) => Some(EpochToMs(f))
    case Str(s) =>
      var t := Strip(s);
      if |t| == 0 then None else ps.isoToMs(t)
    case Other => None
  }

  /** `float(val)`: numbers and booleans convert, strings go through the parser,
      everything else raises (here: `None`). */
  function ToFloat(v: Val, ps: Parsers): Option<real>
  {
    match v
    case Bool(b) => Some(if b then 1.0 else 0.0)
    case Int(i) => Some(i as real)
    case Float(f) => Some(f)
    case Str(s) => ps.parseFloat(s)
    case _ => None
  }

  /** `r.get("value", r.get("price"))`: a present `value` key wins even when it holds `None`. */
  function ReadValue(rec: Record): Val
  {
    if rec.value.Some? then rec.value.value else Get(rec.price)
  }

  /** `start_ts` when it is present and not `None`, else `start`, then converted. */
  function StartMs(rec: Record, ps: Parsers): Option<int>
  {
    var st := Get(rec.startTs);
    if st.Null? then ToTsMs(Get(rec.start), ps) else ToTsMs(st, ps)
  }

  /** `end_ts` when it is present and not `None`, else `end`, then converted. */
  function EndMs(rec: Record, ps: Parsers): Option<int>
  {
    var et := Get(rec.endTs);
    if et.Null? then ToTsMs(Get(rec.end), ps) else ToTsMs(et, ps)
  }

  /** One iteration of the normaliser's loop: the point a record yields, or `None`
      when the record is dropped. */
  function RecordToPoint(rec: Record, ps: Parsers): (r: Option<Point>)
    ensures r.None? <==>
      ReadValue(rec).Null? || StartMs(rec, ps).None? || EndMs(rec, ps).None?
      || ToFloat(ReadValue(rec), ps).None?
    ensures r.Some? ==>
      r.value.startTs == StartMs(rec, ps).value && r.value.endTs == EndMs(rec, ps).value
      && r.value.value == ToFloat(ReadValue(rec), ps).value
  {
    var val := ReadValue(rec);
    if val.Null? then None
    else
      var s := StartMs(rec, ps);
      var e := EndMs(rec, ps);
      if s.None? || e.None? then None
      else
        var f := ToFloat(val, ps);
        if f.None? then None else Some(Point(s.value, e.value, f.value))
  }

  /** A present, non-`None` `start_ts` that does not parse drops the record:
      there is no fallback to `start`. */
  lemma StartTsHasPrecedence(rec: Record, ps: Parsers)
    requires rec.startTs.Some? && !rec.startTs.value.Null?
    requires ToTsMs(rec.startTs.value, ps).None?
    ensures RecordToPoint(rec, ps).None?
  {
  }

  /** A `value` key holding `None` drops the record even when `price` is usable. */
  lemma NullValueHasPrecedence(rec: Record, ps: Parsers)
    requires rec.value == Some(Null)
    ensures RecordToPoint(rec, ps).None?
  {
  }

  /** The kept records' points, in input order (see `CollectAppend` and `CollectOne`). */
  function Collect(rows: seq<Record>, ps: Parsers): (r: seq<Point>)
    ensures |r| <= |rows|
    ensures forall p :: p in r <==> exists k :: 0 <= k < |rows| && RecordToPoint(rows[k], ps) == Some(p)
  {
    if |rows| == 0 then []
    else
      var rest := Collect(rows[1..], ps);
      assert forall k :: 1 <= k < |rows| ==> rows[k] == rows[1..][k - 1];
      match RecordToPoint(rows[0], ps)
      case Some(p) => [p] + rest
      case None => rest
  }

  /** The dictionaries of a list, in order (see `DictsAppend` and `DictsOne`). */
  function Dicts(items: seq<Item>): (r: seq<Record>)
    ensures |r| <= |items|
    ensures forall rec :: rec in r <==> Dict(rec) in items
  {
    if |items| == 0 then []
    else
      var rest := Dicts(items[1..]);
      assert forall it :: it in items <==> it == items[0] || it in items[1..];
      if items[0].Dict? then [items[0].rec] + rest else rest
  }

  /** A single record contributes its point, or nothing when it is unusable. */
  lemma CollectOne(rec: Record, ps: Parsers)
    ensures Collect([rec], ps) == (match RecordToPoint(rec, ps) case Some(p) => [p] case None => [])
  {
    assert [rec][1..] == [];
  }

  /** Collecting distributes over concatenation: order and multiplicity are kept. */
  lemma {:induction false} CollectAppend(a: seq<Record>, b: seq<Record>, ps: Parsers)
    ensures Collect(a + b, ps) == Collect(a, ps) + Collect(b, ps)
  {
    if |a| > 0 {
      assert (a + b)[1..] == a[1..] + b;
      CollectAppend(a[1..], b, ps);
    } else {
      assert a + b == b;
    }
  }

  /** A single item contributes its record, or nothing when it is not a dictionary. */
  lemma DictsOne(it: Item)
    ensures Dicts([it]) == (if it.Dict? then [it.rec] else [])
  {
    assert [it][1..] == [];
  }

  /** Filtering distributes over concatenation: order and multiplicity are kept. */
  lemma {:induction false} DictsAppend(a: seq<Item>, b: seq<Item>)
    ensures Dicts(a + b) == Dicts(a) + Dicts(b)
  {
    if |a| > 0 {
      assert (a + b)[1..] == a[1..] + b;
      DictsAppend(a[1..], b);
    } else {
      assert a + b == b;
    }
  }

  /** `_parse_raw`: the dictionaries of a list, or of a non-blank JSON string that
      decodes to a list; nothing otherwise. */
  function ParseRaw(raw: Raw, ps: Parsers): (r: seq<Record>)
    ensures raw.RawNone? || raw.RawOther? ==> r == []
    ensures raw.RawList? ==> r == Dicts(raw.items)
    ensures raw.RawText? && (forall k :: 0 <= k < |raw.text| ==> IsSpace(raw.text[k])) ==> r == []
    ensures raw.RawText? && (exists k :: 0 <= k < |raw.text| && !IsSpace(raw.text[k])) ==>
      r == (match ps.decodeJson(Strip(raw.text)) case Some(items) => Dicts(items) case None => [])
  {
    match raw
    case RawNone => []
    case RawList(items) => Dicts(items)
    case RawText(text) =>
      var s := Strip(text);
      if |s| == 0 then []
      else
        (match ps.decodeJson(s)
         case Some(items) => Dicts(items)
         case None => [])
    case RawOther => []
  }

  /** Ascending by start time. */
  predicate SortedByStart(s: seq<Point>)
  {
    forall i, j :: 0 <= i < j < |s| ==> s[i].startTs <= s[j].startTs
  }

  /** Inserts `p` after every element whose start is not later than its own. */
  function Insert(p: Point, s: seq<Point>): (r: seq<Point>)
    ensures multiset(r) == multiset(s) + multiset{p}
    ensures SortedByStart(s) ==> SortedByStart(r)
    decreases |s|
  {
    if |s| == 0 then [p]
    else if s[|s| - 1].startTs <= p.startTs then
      SortedAppend(s, p);
      s + [p]
    else
      var last := s[|s| - 1];
      var init := s[..|s| - 1];
      assert s == init + [last];
      var front := Insert(p, init);
      InsertKeepsOrder(p, init, front, last);
      front + [last]
  }

  /** Re-appending the last element after inserting below it keeps a sorted sequence
      sorted. */
  lemma InsertKeepsOrder(p: Point, init: seq<Point>, front: seq<Point>, last: Point)
    requires multiset(front) == multiset(init) + multiset{p}
    requires p.startTs < last.startTs
    requires SortedByStart(init) ==> SortedByStart(front)
    ensures SortedByStart(init + [last]) ==> SortedByStart(front + [last])
  {
    if SortedByStart(init + [last]) {
      assert forall i, j :: 0 <= i < j < |init| ==> (init + [last])[i] == init[i] && (init + [last])[j] == init[j];
      InsertBelow(p, init, front, last);
      SortedAppend(front, last);
    }
  }

  /** Appending an element that is not earlier than any other keeps the order. */
  lemma SortedAppend(s: seq<Point>, q: Point)
    requires SortedByStart(s) ==> forall k :: 0 <= k < |s| ==> s[k].startTs <= q.startTs
    ensures SortedByStart(s) ==> SortedByStart(s + [q])
  {
  }

  lemma InsertBelow(p: Point, init: seq<Point>, front: seq<Point>, last: Point)
    requires multiset(front) == multiset(init) + multiset{p}
    requires p.startTs < last.startTs
    requires SortedByStart(init + [last])
    ensures forall k :: 0 <= k < |front| ==> front[k].startTs <= last.startTs
  {
    forall k | 0 <= k < |front|
      ensures front[k].startTs <= last.startTs
    {
      var q := front[k];
      assert q in multiset(front);
      if q != p {
        assert q in multiset(init);
        var j :| 0 <= j < |init| && init[j] == q;
        assert (init + [last])[j] == q && (init + [last])[|init|] == last;
      }
    }
  }

  /** `list.sort(key=start_ts)`: a stable sort by start time. */
  function SortByStart(s: seq<Point>): (r: seq<Point>)
    ensures SortedByStart(r)
    ensures multiset(r) == multiset(s)
  {
    if |s| == 0 then []
    else
      assert s == s[..|s| - 1] + [s[|s| - 1]];
      Insert(s[|s| - 1], SortByStart(s[..|s| - 1]))
  }

  /** `normalize_raw_points`: the points of the usable records, sorted ascending by
      start; each comes from an input record and every usable record contributes one. */
  function NormalizeRawPoints(raw: Raw, ps: Parsers): (r: seq<Point>)
    ensures SortedByStart(r)
    ensures multiset(r) == multiset(Collect(ParseRaw(raw, ps), ps))
    ensures forall p :: p in r <==>
      exists rec :: rec in ParseRaw(raw, ps) && RecordToPoint(rec, ps) == Some(p)
  {
    var rows := ParseRaw(raw, ps);
    var r := SortByStart(Collect(rows, ps));
    forall p
      ensures p in r <==> exists rec :: rec in rows && RecordToPoint(rec, ps) == Some(p)
    {
      SameElements(r, Collect(rows, ps), p);
      CollectMember(rows, ps, p);
    }
    r
  }

  /** Two sequences with the same multiset have the same elements. */
  lemma SameElements(a: seq<Point>, b: seq<Point>, p: Point)
    requires multiset(a) == multiset(b)
    ensures p in a <==> p in b
  {
    assert p in a <==> p in multiset(a);
    assert p in b <==> p in multiset(b);
  }

  /** Membership in the collected points, stated over records instead of indices. */
  lemma CollectMember(rows: seq<Record>, ps: Parsers, p: Point)
    ensures p in Collect(rows, ps) <==> exists rec :: rec in rows && RecordToPoint(rec, ps) == Some(p)
  {
    if p in Collect(rows, ps) {
      var k :| 0 <= k < |rows| && RecordToPoint(rows[k], ps) == Some(p);
      assert rows[k] in rows;
    }
    if exists rec :: rec in rows && RecordToPoint(rec, ps) == Some(p) {
      var rec :| rec in rows && RecordToPoint(rec, ps) == Some(p);
      var k :| 0 <= k < |rows| && rows[k] == rec;
      assert RecordToPoint(rows[k], ps) == Some(p);
    }
  }
}
