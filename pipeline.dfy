/**
 * The buffer of `MQTTDataPipeline` in bed_dot.py: one shared list of time
 * labels and one list per numeric field, appended to on every plotted message
 * and cut back to the last 20 time labels, together with the `heartrate=`
 * gate of `on_message` that forwards the raw payload before parsing it.
 */
module Pipeline {
  import opened Wrappers
  import opened Text
  import opened JsonValues
  import opened Windows
  import opened Payload

  /** `max_points` in `update_plot`. */
  const MaxPoints: nat := 20

  /** The plotted state: the shared time axis and one list per numeric field. */
  datatype Series = Series(timestamps: seq<Label>, fields: map<string, seq<real>>)

  /** Nothing exceeds 20 entries, and no field list is longer than the time axis. */
  predicate Bounded(s: Series) {
    |s.timestamps| <= MaxPoints && forall k :: k in s.fields ==> |s.fields[k]| <= |s.timestamps|
  }

  /** The keys `update_plot` plots: every numeric value except `timestamp`. */
  function NumericKeys(data: map<string, Value>): set<string> {
    set k | k in data && k != "timestamp" && data[k].Num?
  }

  /** What the loop over `data.items()` appends to the list of `k`: one value or nothing. */
  function Reading(data: map<string, Value>, k: string): seq<real> {
    if k in NumericKeys(data) then [data[k].x] else []
  }

  /** A field's list, or the empty list a new field starts from. */
  function Lookup(fields: map<string, seq<real>>, k: string): seq<real> {
    if k in fields then fields[k] else []
  }

  /** The lists once every numeric reading of `data` has been appended. */
  function Grown(fields: map<string, seq<real>>, data: map<string, Value>): map<string, seq<real>> {
    map k | k in fields.Keys + NumericKeys(data) :: Lookup(fields, k) + Reading(data, k)
  }

  /** The lists once those among `done` that are longer than 20 have lost their first entry. */
  function EvictedIn(fields: map<string, seq<real>>, done: set<string>): map<string, seq<real>> {
    map k | k in fields :: if k in done && |fields[k]| > MaxPoints then fields[k][1..] else fields[k]
  }

  /** The stamp of a payload timestamp, which is read as nanoseconds since the epoch. */
  function StampLabel(t: real): (l: Label)
    ensures l.seconds * 1_000_000_000.0 == t
  {
    Clock(t / 1_000_000_000.0)
  }

  /**
   * `update_plot(data)` on the buffer; None where `data['timestamp']` raises
   * (no such key, or not a number), before anything has been changed.
   */
  function Record(s: Series, data: map<string, Value>): Option<Series> {
    if "timestamp" !in data || !data["timestamp"].Num? then None
    else
      var ts := s.timestamps + [StampLabel(data["timestamp"].x)];
      var grown := Grown(s.fields, data);
      if |ts| > MaxPoints then Some(Series(ts[1..], EvictedIn(grown, grown.Keys)))
      else Some(Series(ts, grown))
  }

  /**
   * One call of `update_plot` keeps the buffer bounded, and is the same as
   * appending to every list and keeping the last 20 of each: the time axis
   * gains exactly one stamp, each numeric field of `data` gains its value
   * (a new field starts a list), every other list is unchanged but for
   * eviction of its oldest entry, and no key of a non-numeric value appears.
   */
  lemma RecordWindows(s: Series, data: map<string, Value>)
    requires Bounded(s)
    requires Record(s, data).Some?
    ensures var r := Record(s, data).value;
      && Bounded(r)
      && r.timestamps == LastN(s.timestamps + [StampLabel(data["timestamp"].x)], MaxPoints)
      && r.fields.Keys == s.fields.Keys + NumericKeys(data)
      && forall k :: k in r.fields ==> r.fields[k] == LastN(Lookup(s.fields, k) + Reading(data, k), MaxPoints)
  {
    var ts := s.timestamps + [StampLabel(data["timestamp"].x)];
    var grown := Grown(s.fields, data);
    var r := Record(s, data).value;
    GrownBounded(s.fields, data, |s.timestamps|);
    assert grown.Keys == s.fields.Keys + NumericKeys(data);
    if |ts| > MaxPoints {
      assert r == Series(ts[1..], EvictedIn(grown, grown.Keys));
      EvictedIsWindow(grown);
    } else {
      assert r == Series(ts, grown);
    }
    assert r.timestamps == LastN(ts, MaxPoints);
    forall k | k in r.fields
      ensures r.fields[k] == LastN(Lookup(s.fields, k) + Reading(data, k), MaxPoints)
    {
      assert grown[k] == Lookup(s.fields, k) + Reading(data, k);
    }
  }

  /** Appending at most one reading per field keeps every list within one more than `n`. */
  lemma GrownBounded(fields: map<string, seq<real>>, data: map<string, Value>, n: nat)
    requires forall k :: k in fields ==> |fields[k]| <= n
    ensures forall k :: k in Grown(fields, data) ==> |Grown(fields, data)[k]| <= n + 1
  {
    forall k | k in Grown(fields, data)
      ensures |Grown(fields, data)[k]| <= n + 1
    {
      assert |Reading(data, k)| <= 1;
    }
  }

  /** Evicting the head of every list over 20, when none is over 21, leaves the last 20 of each. */
  lemma EvictedIsWindow(grown: map<string, seq<real>>)
    requires forall k :: k in grown ==> |grown[k]| <= MaxPoints + 1
    ensures EvictedIn(grown, grown.Keys).Keys == grown.Keys
    ensures forall k :: k in grown ==>
      EvictedIn(grown, grown.Keys)[k] == LastN(grown[k], MaxPoints) &&
      |EvictedIn(grown, grown.Keys)[k]| <= MaxPoints
  {
    forall k | k in grown
      ensures EvictedIn(grown, grown.Keys)[k] == LastN(grown[k], MaxPoints)
    {
      DropFirstIsWindow(grown[k], MaxPoints);
    }
  }

  /** The pipeline object: its plotted lists and the payloads it has published to the target broker. */
  class DataPipeline {
    var timestamps: seq<Label>
    var dataDict: map<string, seq<real>>
    var published: seq<string>
    /** Every stamp ever appended to `timestamps`, oldest first. */
    ghost var stamps: seq<Label>

    ghost predicate Valid()
      reads this
    {
      Bounded(Series(timestamps, dataDict)) && timestamps == LastN(stamps, MaxPoints)
    }

    function Snapshot(): Series
      reads this
    {
      Series(timestamps, dataDict)
    }

    constructor ()
      ensures Valid()
      ensures timestamps == [] && dataDict == map[] && published == [] && stamps == []
    {
      timestamps := [];
      dataDict := map[];
      published := [];
      stamps := [];
      new;
      assert LastN(stamps, MaxPoints) == [];
    }

    /**
     * `update_plot(data)`, buffer part. The time axis always holds the last
     * 20 labels ever recorded.
     */
    method UpdatePlot(data: map<string, Value>) returns (ok: bool)
      requires Valid()
      modifies this
      ensures Valid() && published == old(published)
      ensures ok <==> "timestamp" in data && data["timestamp"].Num?
      ensures ok <==> Record(old(Snapshot()), data).Some?
      ensures ok ==> Snapshot() == Record(old(Snapshot()), data).value
      ensures ok ==> stamps == old(stamps) + [StampLabel(data["timestamp"].x)]
      ensures !ok ==> Snapshot() == old(Snapshot()) && stamps == old(stamps)
    {
      if "timestamp" !in data || !data["timestamp"].Num? {
        return false;
      }
      ghost var before := Snapshot();
      var stamp := StampLabel(data["timestamp"].x);
      AppendReadings(data);
      timestamps := timestamps + [stamp];
      stamps := stamps + [stamp];
      if |timestamps| > MaxPoints {
        timestamps := timestamps[1..];
        EvictOldest();
      }
      RecordWindows(before, data);
      WindowOfWindow(old(stamps), stamp, MaxPoints);
      ok := true;
    }

    /** The loop over `data.items()`: appends each numeric reading, creating the list of a new field. */
    method AppendReadings(data: map<string, Value>)
      modifies this`dataDict
      ensures dataDict == Grown(old(dataDict), data)
    {
      var pending := data.Keys;
      assert data - pending == map[];
      GrownNothing(dataDict);
      while pending != {}
        invariant pending <= data.Keys
        invariant dataDict == Grown(old(dataDict), data - pending)
        decreases pending
      {
        var k :| k in pending;
        var v := data[k];
        ghost var done := data - pending;
        GrownStep(old(dataDict), done, k, v);
        if k != "timestamp" && v.Num? {
          var list := if k in dataDict then dataDict[k] else [];
          dataDict := dataDict[k := list + [v.x]];
        }
        pending := pending - {k};
        assert data - pending == done[k := v];
      }
      assert data - {} == data;
    }

    /** The loop over `self.data_dict` once the time axis overflowed: every list over 20 loses its oldest entry. */
    method EvictOldest()
      modifies this`dataDict
      ensures dataDict == EvictedIn(old(dataDict), old(dataDict).Keys)
    {
      var rest := dataDict.Keys;
      while rest != {}
        invariant rest <= old(dataDict).Keys
        invariant dataDict == EvictedIn(old(dataDict), old(dataDict).Keys - rest)
        decreases rest
      {
        var k :| k in rest;
        if |dataDict[k]| > MaxPoints {
          dataDict := dataDict[k := dataDict[k][1..]];
        }
        rest := rest - {k};
      }
    }

    /**
     * `on_message`: a payload containing `heartrate=` is published to the
     * target broker as it is, before it is parsed; it is then parsed and, if
     * that yields a non-empty dictionary, plotted. Any other payload changes
     * nothing.
     */
    method OnMessage(payload: string, parse: NumParser) returns (forwarded: bool, plotted: bool)
      requires Valid()
      modifies this
      ensures Valid()
      ensures forwarded <==> Contains(payload, "heartrate=")
      ensures published == old(published) + if forwarded then [payload] else []
      ensures var d := ParseData(payload, parse);
        plotted <==> forwarded && d.Some? && d.value != map[] && Record(old(Snapshot()), d.value).Some?
      ensures plotted ==> Snapshot() == Record(old(Snapshot()), ParseData(payload, parse).value).value
      ensures !plotted ==> Snapshot() == old(Snapshot()) && stamps == old(stamps)
      ensures plotted ==> stamps == old(stamps) + [StampLabel(ParseData(payload, parse).value["timestamp"].x)]
    {
      forwarded, plotted := false, false;
      if Contains(payload, "heartrate=") {
        forwarded := true;
        published := published + [payload];
        var data := ParseData(payload, parse);
        if data.Some? && data.value != map[] {
          plotted := UpdatePlot(data.value);
        }
      }
    }
  }

  /** Appending the reading of one more key of `data` to the lists. */
  lemma GrownStep(fields: map<string, seq<real>>, d: map<string, Value>, k: string, v: Value)
    requires k !in d
    ensures Lookup(Grown(fields, d), k) == Lookup(fields, k)
    ensures Grown(fields, d[k := v]) ==
      if k != "timestamp" && v.Num? then Grown(fields, d)[k := Lookup(fields, k) + [v.x]]
      else Grown(fields, d)
  {
    NumericKeysStep(d, k, v);
    if k != "timestamp" && v.Num? {
      GrownByReading(fields, d, k, v);
    } else {
      GrownByNothing(fields, d, k, v);
    }
  }

  /**
   * The case of `GrownStep` where the key is plotted. It is a lemma of its own
   * only to keep each map-extensionality proof small for the solver.
   */
  lemma GrownByReading(fields: map<string, seq<real>>, d: map<string, Value>, k: string, v: Value)
    requires k !in d && k != "timestamp" && v.Num?
    requires NumericKeys(d[k := v]) == NumericKeys(d) + {k}
    ensures Grown(fields, d[k := v]) == Grown(fields, d)[k := Lookup(fields, k) + [v.x]]
  {
    var d' := d[k := v];
    var after := Grown(fields, d');
    var expected := Grown(fields, d)[k := Lookup(fields, k) + [v.x]];
    assert after.Keys == expected.Keys;
    forall j | j in after
      ensures after[j] == expected[j]
    {
      if j != k {
        assert Reading(d', j) == Reading(d, j);
      }
    }
  }

  /**
   * The case of `GrownStep` where the key is not plotted (it is `timestamp`
   * or its value is text). Separate from `GrownStep` for the same reason.
   */
  lemma GrownByNothing(fields: map<string, seq<real>>, d: map<string, Value>, k: string, v: Value)
    requires k !in d && !(k != "timestamp" && v.Num?)
    requires NumericKeys(d[k := v]) == NumericKeys(d)
    ensures Grown(fields, d[k := v]) == Grown(fields, d)
  {
    var d' := d[k := v];
    forall j | j in Grown(fields, d')
      ensures Grown(fields, d')[j] == Grown(fields, d)[j]
    {
      assert Reading(d', j) == Reading(d, j);
    }
  }

  /**
   * The plotted keys of `d` with one more entry. Separate from `GrownStep` so
   * that the set-comprehension step is proved on its own.
   */
  lemma NumericKeysStep(d: map<string, Value>, k: string, v: Value)
    requires k !in d
    ensures k !in NumericKeys(d)
    ensures NumericKeys(d[k := v]) == NumericKeys(d) + if k != "timestamp" && v.Num? then {k} else {}
  {
  }

  /** With nothing to append, the lists are as they were. */
  lemma GrownNothing(fields: map<string, seq<real>>)
    ensures Grown(fields, map[]) == fields
  {
    var empty: map<string, Value> := map[];
    assert NumericKeys(empty) == {};
    assert forall k :: k in fields ==> Lookup(fields, k) + Reading(empty, k) == fields[k];
  }
}
