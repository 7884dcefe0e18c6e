/**
 * http_querier.py: `fetch_data` appends the well-formed entries of each
 * polled batch to two module-level lists, and `update_plot` shows the last
 * 10 of them.
 */
module Querier {
  import opened Wrappers
  import opened Text
  import opened JsonValues
  import opened Windows

  /** The `[-10:]` of `update_plot`. */
  const Shown: nat := 10

  /** One appended entry: its time label and its value. */
  datatype Point = Point(stamp: Label, value: real)

  /** What the body of the loop over the batch does with one entry. */
  datatype Verdict =
    | Skip               // the key check is false: the entry is passed over
    | Abort              // something raised: the rest of the batch is abandoned
    | Take(point: Point) // both conversions succeeded: the pair is appended

  /**
   * `"timestamp" in entry and "value" in entry`, for each kind of entry: key
   * membership for a dict, substring tests for a string, element membership
   * for a list; None for a number, boolean or null, where `in` raises TypeError.
   */
  function HasKeys(entry: Json): (r: Option<bool>)
    ensures r.None? <==> !(entry.JObject? || entry.JString? || entry.JArray?)
    ensures entry.JObject? ==> r == Some("timestamp" in entry.fields && "value" in entry.fields)
  {
    match entry
    case JObject(m) => Some("timestamp" in m && "value" in m)
    case JString(s) => Some(Contains(s, "timestamp") && Contains(s, "value"))
    case JArray(xs) => Some(JString("timestamp") in xs && JString("value") in xs)
    case _ => None
  }

  /**
   * The loop body on one entry. Only a dict holding both keys whose two
   * values `float` accepts is taken; any other dict is skipped; a string or
   * list that passes the key check raises when indexed by a string.
   */
  function Judge(entry: Json, parse: NumParser): (v: Verdict)
    ensures v.Take? <==>
      && entry.JObject? && "timestamp" in entry.fields && "value" in entry.fields
      && FloatOf(entry.fields["timestamp"], parse).Some? && FloatOf(entry.fields["value"], parse).Some?
    ensures v.Take? ==>
      && Some(v.point.stamp.seconds) == FloatOf(entry.fields["timestamp"], parse)
      && Some(v.point.value) == FloatOf(entry.fields["value"], parse)
    ensures entry.JObject? && !("timestamp" in entry.fields && "value" in entry.fields) ==> v == Skip
    ensures v.Abort? <==> HasKeys(entry).None? || (HasKeys(entry) == Some(true) && !v.Take?)
    ensures v.Skip? <==> HasKeys(entry) == Some(false)
    ensures
      && entry.JObject? && "timestamp" in entry.fields && "value" in entry.fields
      && (FloatOf(entry.fields["timestamp"], parse).None? || FloatOf(entry.fields["value"], parse).None?)
      ==> v == Abort
  {
    match HasKeys(entry)
    case None => Abort
    case Some(false) => Skip
    case Some(true) =>
      if !entry.JObject? then Abort
      else
        match (FloatOf(entry.fields["timestamp"], parse), FloatOf(entry.fields["value"], parse))
        case (Some(t), Some(x)) => Take(Point(Clock(t), x))
        case _ => Abort
  }

  /** The points one batch appends: those taken, in order, up to the first entry that raises. */
  function Ingest(entries: seq<Json>, parse: NumParser): seq<Point> {
    if entries == [] then []
    else
      match Judge(entries[0], parse)
      case Skip => Ingest(entries[1..], parse)
      case Abort => []
      case Take(p) => [p] + Ingest(entries[1..], parse)
  }

  /** The batch from entry `i` on: what entry `i` contributes, then the rest unless it raised. */
  lemma IngestFrom(entries: seq<Json>, i: nat, parse: NumParser)
    requires i < |entries|
    ensures Ingest(entries[i..], parse) ==
      match Judge(entries[i], parse)
      case Skip => Ingest(entries[i + 1..], parse)
      case Abort => []
      case Take(p) => [p] + Ingest(entries[i + 1..], parse)
  {
    assert entries[i..][1..] == entries[i + 1..];
  }

  /** The points taken from `entries` if nothing raised: a plain filter. */
  function Taken(entries: seq<Json>, parse: NumParser): (ps: seq<Point>)
    ensures |ps| <= |entries|
  {
    if entries == [] then []
    else
      var rest := Taken(entries[1..], parse);
      match Judge(entries[0], parse)
      case Take(p) => [p] + rest
      case _ => rest
  }

  /** The filter distributes over concatenation, so entries keep their arrival order. */
  lemma {:induction false} TakenAppend(a: seq<Json>, b: seq<Json>, parse: NumParser)
    ensures Taken(a + b, parse) == Taken(a, parse) + Taken(b, parse)
  {
    if a == [] {
      assert a + b == b;
    } else {
      assert (a + b)[1..] == a[1..] + b;
      TakenAppend(a[1..], b, parse);
    }
  }

  /** Every taken point comes from a well-formed entry: a dict with both keys whose values convert to it. */
  lemma {:induction false} TakenFromWellFormed(entries: seq<Json>, parse: NumParser, i: nat)
    requires i < |Taken(entries, parse)|
    ensures exists j :: 0 <= j < |entries| && Judge(entries[j], parse) == Take(Taken(entries, parse)[i])
  {
    var rest := Taken(entries[1..], parse);
    var v := Judge(entries[0], parse);
    if v.Take? && i == 0 {
      assert Taken(entries, parse)[0] == v.point;
    } else {
      var i' := if v.Take? then i - 1 else i;
      assert Taken(entries, parse)[i] == rest[i'];
      TakenFromWellFormed(entries[1..], parse, i');
      var j :| 0 <= j < |entries| - 1 && Judge(entries[1..][j], parse) == Take(rest[i']);
      assert entries[j + 1] == entries[1..][j];
    }
  }

  /** A batch in which nothing raises appends exactly the taken points. */
  lemma {:induction false} IngestWithoutAbort(entries: seq<Json>, parse: NumParser)
    requires forall j :: 0 <= j < |entries| ==> !Judge(entries[j], parse).Abort?
    ensures Ingest(entries, parse) == Taken(entries, parse)
  {
    if entries != [] {
      assert forall j :: 0 <= j < |entries| - 1 ==> entries[1..][j] == entries[j + 1];
      IngestWithoutAbort(entries[1..], parse);
    }
  }

  /**
   * When entry `k` is the first that raises, the batch appends the points
   * taken before it, and nothing from `k` on.
   */
  lemma {:induction false} IngestStopsAtAbort(entries: seq<Json>, k: nat, parse: NumParser)
    requires k < |entries| && Judge(entries[k], parse).Abort?
    requires forall j :: 0 <= j < k ==> !Judge(entries[j], parse).Abort?
    ensures Ingest(entries, parse) == Taken(entries[..k], parse)
  {
    if k > 0 {
      assert forall j :: 0 <= j < |entries| - 1 ==> entries[1..][j] == entries[j + 1];
      IngestStopsAtAbort(entries[1..], k - 1, parse);
      assert entries[1..][..k - 1] == entries[..k][1..];
    }
  }

  /**
   * The entry list of a response: the inner list when the status is 200, the
   * body decodes to a string and that string decodes to a list; empty
   * otherwise (a failed check or a decoding error leaves the lists alone).
   */
  function Batch(status: int, body: Option<Json>, decode: string -> Option<Json>): seq<Json> {
    if status == 200 && body.Some? && body.value.JString? then
      match decode(body.value.s)
      case Some(JArray(xs)) => xs
      case _ => []
    else []
  }

  /** The labels of `ps`, in order. */
  function Stamps(ps: seq<Point>): (r: seq<Label>)
    ensures |r| == |ps|
  {
    if ps == [] then [] else Stamps(ps[..|ps| - 1]) + [ps[|ps| - 1].stamp]
  }

  /** The values of `ps`, in order. */
  function Values(ps: seq<Point>): (r: seq<real>)
    ensures |r| == |ps|
  {
    if ps == [] then [] else Values(ps[..|ps| - 1]) + [ps[|ps| - 1].value]
  }

  /** Appending one point appends its label and its value to the two columns. */
  lemma ColumnsAppend(ps: seq<Point>, p: Point)
    ensures Stamps(ps + [p]) == Stamps(ps) + [p.stamp]
    ensures Values(ps + [p]) == Values(ps) + [p.value]
  {
    assert (ps + [p])[..|ps|] == ps;
  }

  /** The invariant of the batch loop survives appending one taken point. */
  lemma TakeStep(added: seq<Point>, p: Point, rest: seq<Point>, whole: seq<Point>)
    requires added + ([p] + rest) == whole
    ensures (added + [p]) + rest == whole
    ensures Stamps(added + [p]) == Stamps(added) + [p.stamp]
    ensures Values(added + [p]) == Values(added) + [p.value]
  {
    assert (added + [p]) + rest == added + ([p] + rest);
    ColumnsAppend(added, p);
  }

  /** What `update_plot` draws: the last (up to) 10 labels and values. */
  datatype View = View(stamps: seq<Label>, values: seq<real>)

  /** The module-level lists `timestamps` and `values`; they only ever grow. */
  class HeartRateLog {
    var timestamps: seq<Label>
    var values: seq<real>

    ghost predicate Valid()
      reads this
    {
      |timestamps| == |values|
    }

    constructor ()
      ensures Valid() && timestamps == [] && values == []
    {
      timestamps, values := [], [];
    }

    /**
     * `fetch_data()` given the response status, the decoded response body
     * (None where `json.loads` raises) and the decoder of the inner string.
     * The lists are only appended to, and in lock-step.
     */
    method FetchData(status: int, body: Option<Json>, decode: string -> Option<Json>, parse: NumParser)
      requires Valid()
      modifies this
      ensures Valid()
      ensures timestamps == old(timestamps) + Stamps(Ingest(Batch(status, body, decode), parse))
      ensures values == old(values) + Values(Ingest(Batch(status, body, decode), parse))
      ensures status != 200 || body.None? || !body.value.JString? ==>
        timestamps == old(timestamps) && values == old(values)
      ensures Batch(status, body, decode) == [] ==> timestamps == old(timestamps) && values == old(values)
    {
      if status != 200 || body.None? || !body.value.JString? {
        return;
      }
      var inner := decode(body.value.s);
      if inner.None? || !inner.value.JArray? {
        return;
      }
      AppendBatch(inner.value.items, parse);
    }

    /** The loop over the entries of one batch, which returns at the first entry that raises. */
    method AppendBatch(entries: seq<Json>, parse: NumParser)
      requires Valid()
      modifies this
      ensures Valid()
      ensures timestamps == old(timestamps) + Stamps(Ingest(entries, parse))
      ensures values == old(values) + Values(Ingest(entries, parse))
    {
      ghost var added: seq<Point> := [];
      var i := 0;
      while i < |entries|
        invariant 0 <= i <= |entries|
        invariant added + Ingest(entries[i..], parse) == Ingest(entries, parse)
        invariant timestamps == old(timestamps) + Stamps(added)
        invariant values == old(values) + Values(added)
      {
        var verdict := Judge(entries[i], parse);
        IngestFrom(entries, i, parse);
        match verdict {
          case Abort =>
            assert added + [] == added;
            return;
          case Skip =>
          case Take(p) =>
            timestamps := timestamps + [p.stamp];
            values := values + [p.value];
            TakeStep(added, p, Ingest(entries[i + 1..], parse), Ingest(entries, parse));
            added := added + [p];
        }
        i := i + 1;
      }
      assert entries[i..] == [];
      assert added + [] == added;
    }

    /**
     * `update_plot()`: nothing when either list is empty, else the last
     * min(10, n) labels and values, oldest first.
     */
    function Window(): (w: Option<View>)
      reads this
      ensures w.None? <==> |timestamps| == 0 || |values| == 0
      ensures w.Some? ==>
        && |w.value.stamps| == (if |timestamps| < Shown then |timestamps| else Shown)
        && |w.value.values| == (if |values| < Shown then |values| else Shown)
        && (forall i :: 0 <= i < |w.value.stamps| ==>
              w.value.stamps[i] == timestamps[|timestamps| - |w.value.stamps| + i])
        && (forall i :: 0 <= i < |w.value.values| ==>
              w.value.values[i] == values[|values| - |w.value.values| + i])
    {
      if |timestamps| == 0 || |values| == 0 then None
      else Some(View(LastN(timestamps, Shown), LastN(values, Shown)))
    }
  }
}
