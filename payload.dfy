/**
 * `parse_data` of bed_dot.py: turns a `key=value;key=value` payload into a
 * dictionary. Each `;`-separated piece is first read into a `Segment` (its
 * number of `=`, and its key and value); the loop over the pieces is a fold
 * over the prefixes of the segment list (`Fold`), one `Step` per segment.
 * What the fold computes is then described without reference to the loop
 * (`Malformed`, `StampFails`, `FirstStampAt`, `LastFieldAt`) and the two
 * are connected by `FoldMeaning`.
 */
module Payload {
  import opened Wrappers
  import opened Text
  import opened JsonValues

  /** A stored value: a number when `float` accepts the text, else the raw text. */
  datatype Value = Num(x: real) | Raw(s: string)

  /** `float(value)`, falling back to the raw string when it raises ValueError. */
  function Convert(value: string, parse: NumParser): (v: Value)
    ensures v.Num? <==> parse(value).Some?
    ensures v.Num? ==> parse(value) == Some(v.x)
    ensures v.Raw? ==> v.s == value
  {
    match parse(value)
    case Some(x) => Num(x)
    case None => Raw(value)
  }

  /** `'timestamp' in key.lower()`. */
  predicate IsTimestampKey(key: string) {
    Contains(Lower(key), "timestamp")
  }

  /** `payload.strip().split(';')`. */
  function Pairs(payload: string): seq<string> {
    Split(Strip(payload), ';')
  }

  /** `pair.strip().split('=')`. */
  function Pieces(pair: string): seq<string> {
    Split(Strip(pair), '=')
  }

  /** Splitting a piece on `=` yields one piece more than it has `=` signs. */
  lemma PiecesCount(pair: string)
    ensures |Pieces(pair)| == Count(pair, '=') + 1
  {
    StripKeepsCount(pair, '=');
    SplitPieces(Strip(pair), '=');
  }

  /** One `;`-separated piece as the loop body sees it. */
  datatype Segment = Segment(equals: nat, key: string, value: string, stamp: bool)

  /**
   * Reads one piece: `'=' in pair` holds when it has an `=`; unpacking
   * `pair.strip().split('=')` into `key, value` succeeds exactly when it has
   * one, and then the stripped piece is `key=value` with no `=` in either
   * part; `stamp` tells whether the key names a timestamp.
   */
  function Scan(pair: string): (sg: Segment)
    ensures sg.equals == 0 <==> '=' !in pair
    ensures sg.equals == 1 <==> |Pieces(pair)| == 2
    ensures sg.equals == 1 ==>
      sg.key + "=" + sg.value == Strip(pair) && '=' !in sg.key && '=' !in sg.value
    ensures sg.stamp == IsTimestampKey(sg.key)
  {
    PiecesCount(pair);
    SplitPieces(Strip(pair), '=');
    JoinSplit(Strip(pair), '=');
    var p := Pieces(pair);
    Segment(Count(pair, '='), p[0], if |p| > 1 then p[1] else [], IsTimestampKey(p[0]))
  }

  function Scans(pairs: seq<string>): (segs: seq<Segment>)
    ensures |segs| == |pairs| && forall i :: 0 <= i < |pairs| ==> segs[i] == Scan(pairs[i])
  {
    seq(|pairs|, i requires 0 <= i < |pairs| => Scan(pairs[i]))
  }

  /** The segments of a payload, in order. */
  function Segments(payload: string): seq<Segment> {
    Scans(Pairs(payload))
  }

  /** The locals of the loop: the dictionary built so far and `first_timestamp`. */
  datatype Acc = Acc(fields: map<string, Value>, first: Option<real>)

  /** One pass of the loop body; None where the body raises. */
  function Step(acc: Acc, sg: Segment, parse: NumParser): Option<Acc> {
    if sg.equals == 0 then Some(acc)
    else if sg.equals != 1 then None
    else if sg.stamp then
      if acc.first.Some? then Some(acc)
      else
        match parse(sg.value)
        case None => None
        case Some(t) => Some(Acc(acc.fields, Some(t)))
    else Some(Acc(acc.fields[sg.key := Convert(sg.value, parse)], acc.first))
  }

  /** The loop run over `segs`; None once any pass has raised. */
  function Fold(segs: seq<Segment>, parse: NumParser): Option<Acc> {
    if segs == [] then Some(Acc(map[], None))
    else
      match Fold(segs[..|segs| - 1], parse)
      case None => None
      case Some(acc) => Step(acc, segs[|segs| - 1], parse)
  }

  /** `parse_data(payload)`: None where the function catches an exception and returns None. */
  function ParseData(payload: string, parse: NumParser): Option<map<string, Value>> {
    match Fold(Segments(payload), parse)
    case None => None
    case Some(acc) =>
      Some(if acc.first.Some? then acc.fields["timestamp" := Num(acc.first.value)] else acc.fields)
  }

  // ---------------------------------------------------------------------
  // What the loop computes, stated over the whole segment list.
  // ---------------------------------------------------------------------

  /** Some segment holds two or more `=`, so unpacking its pieces into `key, value` fails. */
  ghost predicate Malformed(segs: seq<Segment>) {
    exists i :: 0 <= i < |segs| && segs[i].equals >= 2
  }

  /** A `key=value` segment whose key names a timestamp. */
  ghost predicate IsStamp(sg: Segment) {
    sg.equals == 1 && sg.stamp
  }

  /** A `key=value` segment whose key is an ordinary field. */
  ghost predicate IsField(sg: Segment) {
    sg.equals == 1 && !sg.stamp
  }

  ghost predicate HasStamp(segs: seq<Segment>) {
    exists i :: 0 <= i < |segs| && IsStamp(segs[i])
  }

  /** Segment `i` is the first timestamp segment. */
  ghost predicate FirstStampAt(segs: seq<Segment>, i: int) {
    0 <= i < |segs| && IsStamp(segs[i]) && forall j :: 0 <= j < i ==> !IsStamp(segs[j])
  }

  /** The value of the first timestamp segment is not a number. */
  ghost predicate StampFails(segs: seq<Segment>, parse: NumParser) {
    exists i :: FirstStampAt(segs, i) && parse(segs[i].value).None?
  }

  ghost predicate HasField(segs: seq<Segment>, k: string) {
    exists i :: 0 <= i < |segs| && IsField(segs[i]) && segs[i].key == k
  }

  /** Segment `i` is the last field segment with key `k`. */
  ghost predicate LastFieldAt(segs: seq<Segment>, i: int, k: string) {
    0 <= i < |segs| && IsField(segs[i]) && segs[i].key == k &&
    forall j :: i < j < |segs| ==> !(IsField(segs[j]) && segs[j].key == k)
  }

  /** `first_timestamp` after reading `segs`: the value of the first timestamp segment, if any. */
  ghost predicate StampDescribed(segs: seq<Segment>, first: Option<real>, parse: NumParser) {
    && (first.Some? <==> HasStamp(segs))
    && (first.Some? ==> exists i :: FirstStampAt(segs, i) && parse(segs[i].value) == first)
  }

  /** The keys of the dictionary after reading `segs`: those of the field segments. */
  ghost predicate KeysDescribed(segs: seq<Segment>, fields: map<string, Value>) {
    forall k :: k in fields <==> HasField(segs, k)
  }

  /** Each stored value comes from the last field segment with that key. */
  ghost predicate ValuesDescribed(segs: seq<Segment>, fields: map<string, Value>, parse: NumParser) {
    forall k :: k in fields ==>
      exists i :: LastFieldAt(segs, i, k) && fields[k] == Convert(segs[i].value, parse)
  }

  /** The loop locals after reading `segs` are what the segments call for. */
  ghost predicate Describes(segs: seq<Segment>, acc: Acc, parse: NumParser) {
    StampDescribed(segs, acc.first, parse) && KeysDescribed(segs, acc.fields) &&
    ValuesDescribed(segs, acc.fields, parse)
  }

  /** Reading one more segment makes the list malformed exactly when that segment has two or more `=`. */
  lemma AppendMalformed(pre: seq<Segment>, s: Segment)
    ensures Malformed(pre + [s]) <==> Malformed(pre) || s.equals >= 2
  {
    var segs := pre + [s];
    if Malformed(segs) {
      var i :| 0 <= i < |segs| && segs[i].equals >= 2;
      if i < |pre| { assert segs[i] == pre[i]; }
    }
    if Malformed(pre) {
      var i :| 0 <= i < |pre| && pre[i].equals >= 2;
      assert segs[i] == pre[i];
    }
    assert segs[|pre|] == s;
  }

  /** How the first-timestamp descriptions change when one more segment is read. */
  lemma AppendStamp(pre: seq<Segment>, s: Segment, parse: NumParser)
    ensures HasStamp(pre + [s]) <==> HasStamp(pre) || IsStamp(s)
    ensures forall i :: 0 <= i < |pre| ==> (FirstStampAt(pre + [s], i) <==> FirstStampAt(pre, i))
    ensures FirstStampAt(pre + [s], |pre|) <==> IsStamp(s) && !HasStamp(pre)
    ensures StampFails(pre + [s], parse) <==>
      StampFails(pre, parse) || (IsStamp(s) && !HasStamp(pre) && parse(s.value).None?)
  {
    var segs := pre + [s];
    assert forall i :: 0 <= i < |pre| ==> segs[i] == pre[i];
    assert segs[|pre|] == s;
    if HasStamp(segs) {
      var i :| 0 <= i < |segs| && IsStamp(segs[i]);
      if i < |pre| { assert IsStamp(pre[i]); }
    }
    if HasStamp(pre) {
      var i :| 0 <= i < |pre| && IsStamp(pre[i]);
      assert IsStamp(segs[i]);
    }
    if IsStamp(s) && !HasStamp(pre) {
      assert FirstStampAt(segs, |pre|);
    }
    if StampFails(segs, parse) {
      var i :| FirstStampAt(segs, i) && parse(segs[i].value).None?;
      if i < |pre| { assert FirstStampAt(pre, i); }
    }
    if StampFails(pre, parse) {
      var i :| FirstStampAt(pre, i) && parse(pre[i].value).None?;
      assert FirstStampAt(segs, i);
    }
  }

  /** How the field descriptions change when one more segment is read. */
  lemma AppendField(pre: seq<Segment>, s: Segment)
    ensures forall k :: HasField(pre + [s], k) <==> HasField(pre, k) || (IsField(s) && s.key == k)
    ensures forall i, k :: 0 <= i < |pre| ==>
      (LastFieldAt(pre + [s], i, k) <==> LastFieldAt(pre, i, k) && !(IsField(s) && s.key == k))
    ensures forall k :: LastFieldAt(pre + [s], |pre|, k) <==> IsField(s) && s.key == k
  {
    var segs := pre + [s];
    assert forall i :: 0 <= i < |pre| ==> segs[i] == pre[i];
    assert segs[|pre|] == s;
    forall k | HasField(segs, k)
      ensures HasField(pre, k) || (IsField(s) && s.key == k)
    {
      var i :| 0 <= i < |segs| && IsField(segs[i]) && segs[i].key == k;
      if i < |pre| { assert IsField(pre[i]) && pre[i].key == k; }
    }
    forall k | HasField(pre, k)
      ensures HasField(segs, k)
    {
      var i :| 0 <= i < |pre| && IsField(pre[i]) && pre[i].key == k;
      assert IsField(segs[i]) && segs[i].key == k;
    }
    forall k | IsField(s) && s.key == k
      ensures HasField(segs, k)
    {
      assert IsField(segs[|pre|]) && segs[|pre|].key == k;
    }
  }

  /** The fold fails exactly on a malformed segment or a non-numeric first timestamp, and otherwise describes its input. */
  lemma {:induction false} FoldMeaning(segs: seq<Segment>, parse: NumParser)
    ensures Fold(segs, parse).None? <==> Malformed(segs) || StampFails(segs, parse)
    ensures Fold(segs, parse).Some? ==> Describes(segs, Fold(segs, parse).value, parse)
  {
    if segs == [] {
      return;
    }
    var pre, s := segs[..|segs| - 1], segs[|segs| - 1];
    assert segs == pre + [s];
    FoldMeaning(pre, parse);
    AppendMalformed(pre, s);
    AppendStamp(pre, s, parse);
    match Fold(pre, parse)
    case None =>
    case Some(acc) =>
      StepMeaning(pre, s, acc, parse);
  }

  /** One pass of the loop body, read against the description of the segments before it. */
  lemma StepMeaning(pre: seq<Segment>, s: Segment, acc: Acc, parse: NumParser)
    requires Describes(pre, acc, parse)
    ensures Step(acc, s, parse).None? <==>
      s.equals >= 2 || (IsStamp(s) && !HasStamp(pre) && parse(s.value).None?)
    ensures Step(acc, s, parse).Some? ==> Describes(pre + [s], Step(acc, s, parse).value, parse)
  {
    if s.equals == 0 {
      KeepStep(pre, s, acc, parse);
    } else if s.equals >= 2 {
    } else if !s.stamp {
      FieldStep(pre, s, acc, parse);
    } else if acc.first.Some? {
      KeepStep(pre, s, acc, parse);
    } else {
      assert IsStamp(s) && !HasStamp(pre);
      if parse(s.value).Some? {
        FirstStampStep(pre, s, acc, parse);
      }
    }
  }

  /** A segment that is neither a field nor the first timestamp leaves the loop locals as they were. */
  lemma KeepStep(pre: seq<Segment>, s: Segment, acc: Acc, parse: NumParser)
    requires Describes(pre, acc, parse)
    requires !IsField(s)
    requires IsStamp(s) ==> acc.first.Some?
    ensures Describes(pre + [s], acc, parse)
  {
    var segs := pre + [s];
    AppendStamp(pre, s, parse);
    AppendField(pre, s);
    if acc.first.Some? {
      var i :| FirstStampAt(pre, i) && parse(pre[i].value) == acc.first;
      assert FirstStampAt(segs, i);
    }
    assert StampDescribed(segs, acc.first, parse);
    assert KeysDescribed(segs, acc.fields);
    forall k | k in acc.fields
      ensures exists i :: LastFieldAt(segs, i, k) && acc.fields[k] == Convert(segs[i].value, parse)
    {
      var i :| LastFieldAt(pre, i, k) && acc.fields[k] == Convert(pre[i].value, parse);
      assert LastFieldAt(segs, i, k) && segs[i] == pre[i];
    }
    assert ValuesDescribed(segs, acc.fields, parse);
  }

  /** The first timestamp segment with a numeric value sets `first_timestamp`. */
  lemma FirstStampStep(pre: seq<Segment>, s: Segment, acc: Acc, parse: NumParser)
    requires Describes(pre, acc, parse)
    requires IsStamp(s) && acc.first.None? && parse(s.value).Some?
    ensures Describes(pre + [s], Acc(acc.fields, parse(s.value)), parse)
  {
    var segs := pre + [s];
    AppendStamp(pre, s, parse);
    AppendField(pre, s);
    assert FirstStampAt(segs, |pre|) && segs[|pre|] == s;
    assert StampDescribed(segs, parse(s.value), parse);
    assert KeysDescribed(segs, acc.fields);
    forall k | k in acc.fields
      ensures exists i :: LastFieldAt(segs, i, k) && acc.fields[k] == Convert(segs[i].value, parse)
    {
      var i :| LastFieldAt(pre, i, k) && acc.fields[k] == Convert(pre[i].value, parse);
      assert LastFieldAt(segs, i, k) && segs[i] == pre[i];
    }
    assert ValuesDescribed(segs, acc.fields, parse);
  }

  /** Reading one field segment keeps the description of the fields. */
  lemma FieldStep(pre: seq<Segment>, s: Segment, acc: Acc, parse: NumParser)
    requires Describes(pre, acc, parse)
    requires IsField(s)
    ensures Describes(pre + [s], Acc(acc.fields[s.key := Convert(s.value, parse)], acc.first), parse)
  {
    var segs := pre + [s];
    var fields := acc.fields[s.key := Convert(s.value, parse)];
    AppendStamp(pre, s, parse);
    AppendField(pre, s);
    if acc.first.Some? {
      var i :| FirstStampAt(pre, i) && parse(pre[i].value) == acc.first;
      assert FirstStampAt(segs, i);
    }
    assert StampDescribed(segs, acc.first, parse);
    assert KeysDescribed(segs, fields);
    forall k | k in fields
      ensures exists i :: LastFieldAt(segs, i, k) && fields[k] == Convert(segs[i].value, parse)
    {
      if k == s.key {
        assert LastFieldAt(segs, |pre|, k) && segs[|pre|] == s;
      } else {
        var i :| LastFieldAt(pre, i, k) && acc.fields[k] == Convert(pre[i].value, parse);
        assert LastFieldAt(segs, i, k) && segs[i] == pre[i];
      }
    }
    assert ValuesDescribed(segs, fields, parse);
  }

  // ---------------------------------------------------------------------
  // parse_data as a whole.
  // ---------------------------------------------------------------------

  /** The key `timestamp` itself names a timestamp, so it is never stored as an ordinary field. */
  lemma TimestampIsStampKey()
    ensures IsTimestampKey("timestamp")
  {
    assert Lower("timestamp") == "timestamp";
    assert StartsWith("timestamp", "timestamp");
  }

  /**
   * `parse_data` returns None exactly when some segment has two or more `=`
   * or the value of the first timestamp segment is not a number; segments
   * without `=`, empty ones included, never make it fail.
   */
  lemma ParseDataFails(payload: string, parse: NumParser)
    ensures ParseData(payload, parse).None? <==>
      Malformed(Segments(payload)) || StampFails(Segments(payload), parse)
  {
    FoldMeaning(Segments(payload), parse);
  }

  /**
   * The timestamp of a successful `parse_data`: present exactly when some
   * segment names a timestamp, and then the number in the FIRST such segment;
   * the values of later timestamp segments play no part.
   */
  lemma ParseDataStamp(payload: string, parse: NumParser, d: map<string, Value>)
    requires ParseData(payload, parse) == Some(d)
    ensures "timestamp" in d <==> HasStamp(Segments(payload))
    ensures "timestamp" in d ==>
      d["timestamp"].Num? &&
      exists i :: FirstStampAt(Segments(payload), i) &&
        parse(Segments(payload)[i].value) == Some(d["timestamp"].x)
  {
    var segs := Segments(payload);
    FoldMeaning(segs, parse);
    var acc := Fold(segs, parse).value;
    SegmentsFlagged(payload);
    StoredStamp(segs, acc, parse, d);
  }

  /**
   * The other keys of a successful `parse_data`: no timestamp-like key but
   * `timestamp`, exactly the keys of the field segments, and for each key the
   * value of its LAST segment, a number when `float` accepts it and the raw
   * text otherwise.
   */
  lemma ParseDataFields(payload: string, parse: NumParser, d: map<string, Value>)
    requires ParseData(payload, parse) == Some(d)
    ensures forall k :: k in d && k != "timestamp" ==> !IsTimestampKey(k)
    ensures forall k :: k != "timestamp" ==> (k in d <==> HasField(Segments(payload), k))
    ensures forall k :: k in d && k != "timestamp" ==>
      exists i :: LastFieldAt(Segments(payload), i, k) &&
        d[k] == Convert(Segments(payload)[i].value, parse)
  {
    var segs := Segments(payload);
    FoldMeaning(segs, parse);
    var acc := Fold(segs, parse).value;
    SegmentsFlagged(payload);
    StoredFields(segs, acc, parse, d);
  }

  /** Every segment's `stamp` flag agrees with its key, as `Scan` sets it. */
  ghost predicate Flagged(segs: seq<Segment>) {
    forall i :: 0 <= i < |segs| ==> segs[i].stamp == IsTimestampKey(segs[i].key)
  }

  lemma SegmentsFlagged(payload: string)
    ensures Flagged(Segments(payload))
  {
  }

  /** The timestamp of the returned dictionary, read off the loop locals. */
  lemma StoredStamp(segs: seq<Segment>, acc: Acc, parse: NumParser, d: map<string, Value>)
    requires Flagged(segs) && Describes(segs, acc, parse)
    requires d == if acc.first.Some? then acc.fields["timestamp" := Num(acc.first.value)] else acc.fields
    ensures "timestamp" in d <==> HasStamp(segs)
    ensures "timestamp" in d ==>
      d["timestamp"].Num? &&
      exists i :: FirstStampAt(segs, i) && parse(segs[i].value) == Some(d["timestamp"].x)
  {
    assert StampDescribed(segs, acc.first, parse);
    if "timestamp" in acc.fields {
      assert HasField(segs, "timestamp");
      var i :| 0 <= i < |segs| && IsField(segs[i]) && segs[i].key == "timestamp";
      FieldKeyIsNoStamp(segs[i]);
      assert false;
    }
  }

  /** The fields of the returned dictionary, read off the loop locals. */
  lemma StoredFields(segs: seq<Segment>, acc: Acc, parse: NumParser, d: map<string, Value>)
    requires Flagged(segs) && Describes(segs, acc, parse)
    requires d == if acc.first.Some? then acc.fields["timestamp" := Num(acc.first.value)] else acc.fields
    ensures forall k :: k in d && k != "timestamp" ==> !IsTimestampKey(k)
    ensures forall k :: k != "timestamp" ==> (k in d <==> HasField(segs, k))
    ensures forall k :: k in d && k != "timestamp" ==>
      exists i :: LastFieldAt(segs, i, k) && d[k] == Convert(segs[i].value, parse)
  {
    assert KeysDescribed(segs, acc.fields);
    assert ValuesDescribed(segs, acc.fields, parse);
    forall k | k in d && k != "timestamp"
      ensures k in acc.fields && d[k] == acc.fields[k] && !IsTimestampKey(k)
    {
      assert k in acc.fields;
      assert HasField(segs, k);
      var i :| 0 <= i < |segs| && IsField(segs[i]) && segs[i].key == k;
      FieldKeyIsNoStamp(segs[i]);
    }
    forall k | k != "timestamp"
      ensures k in d <==> HasField(segs, k)
    {
      assert k in d <==> k in acc.fields;
    }
  }

  /** The key of a scanned field segment never names a timestamp, and so is never `timestamp` itself. */
  lemma FieldKeyIsNoStamp(sg: Segment)
    requires IsField(sg) && sg.stamp == IsTimestampKey(sg.key)
    ensures !IsTimestampKey(sg.key) && sg.key != "timestamp"
  {
    TimestampIsStampKey();
  }

  // ---------------------------------------------------------------------
  // Segments that are skipped, and one that is rejected.
  // ---------------------------------------------------------------------

  /**
   * A segment without `=`, an empty one included, is skipped wherever it
   * stands: removing it changes nothing, so it can never make the parse fail.
   */
  lemma {:induction false} SkipsSegmentWithoutEquals(pre: seq<Segment>, sg: Segment, post: seq<Segment>, parse: NumParser)
    requires sg.equals == 0
    ensures Fold(pre + [sg] + post, parse) == Fold(pre + post, parse)
  {
    var long := pre + [sg] + post;
    var short := pre + post;
    if post == [] {
      assert long[..|long| - 1] == pre && long[|long| - 1] == sg;
      assert short == pre;
    } else {
      var init, last := post[..|post| - 1], post[|post| - 1];
      SkipsSegmentWithoutEquals(pre, sg, init, parse);
      assert long[..|long| - 1] == pre + [sg] + init && long[|long| - 1] == last;
      assert short[..|short| - 1] == pre + init && short[|short| - 1] == last;
    }
  }

  /**
   * A payload `k=a=b` without `;` is rejected whatever its parts: its one
   * segment has two `=`, so it does not unpack into `key, value`.
   */
  lemma RejectsDoubleEquals(k: string, a: string, b: string, parse: NumParser)
    requires ';' !in k + a + b
    ensures ParseData(k + "=" + a + "=" + b, parse) == None
  {
    var pair := k + "=" + a + "=" + b;
    assert Count(pair, '=') >= 2 by {
      assert pair == (k + "=" + a) + ("=" + b);
      assert k + "=" + a == k + ("=" + a);
      CountAppend(k + "=" + a, "=" + b, '=');
      CountAppend(k, "=" + a, '=');
      CountAppend("=", a, '=');
      CountAppend("=", b, '=');
      assert Count("=", '=') == 1;
    }
    assert ';' !in Strip(pair) by {
      assert forall i :: 0 <= i < |pair| ==> pair[i] != ';' by {
        assert forall i :: 0 <= i < |k| ==> pair[i] == (k + a + b)[i];
      }
    }
    NoSeparator(Strip(pair), ';');
    StripKeepsCount(pair, '=');
    PiecesCount(Strip(pair));
    var segs := Segments(pair);
    assert segs[0] == Scan(Strip(pair));
    assert Malformed(segs);
    ParseDataFails(pair, parse);
  }
}
