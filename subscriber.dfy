/**
 * `on_message` of mqtt_subscriber.py: accepts decoded `heart_rate` messages
 * into two lists kept in lock-step and cut to their last 20 entries.
 */
module Subscriber {
  import opened Wrappers
  import opened JsonValues
  import opened Windows

  /** The `[-20:]` of `on_message`. */
  const Kept: nat := 20

  /** What `on_message` makes of one decoded message. */
  datatype Reading =
    | Ignored                          // not a heart-rate message
    | Raised                           // a lookup or `fromtimestamp` raised before anything was appended
    | HeartRate(stamp: Label, value: Json)

  /**
   * The message's reading: an object whose `type` is `"heart_rate"` yields
   * its `value` (whatever it is) and the label of its `timestamp`; any other
   * object is ignored; a value that is not an object, a missing `value` or
   * `timestamp`, or a timestamp that is not a number raise.
   */
  function ReadMessage(msg: Json): (r: Reading)
    ensures r.Ignored? <==>
      msg.JObject? && !("type" in msg.fields && msg.fields["type"] == JString("heart_rate"))
    ensures r.HeartRate? <==>
      && msg.JObject? && "type" in msg.fields && msg.fields["type"] == JString("heart_rate")
      && "value" in msg.fields && "timestamp" in msg.fields
      && NumericValue(msg.fields["timestamp"]).Some?
    ensures r.HeartRate? ==>
      r.value == msg.fields["value"] && Some(r.stamp.seconds) == NumericValue(msg.fields["timestamp"])
  {
    if !msg.JObject? then Raised
    else if "type" !in msg.fields || msg.fields["type"] != JString("heart_rate") then Ignored
    else if "value" !in msg.fields || "timestamp" !in msg.fields then Raised
    else
      match NumericValue(msg.fields["timestamp"])
      case None => Raised
      case Some(t) => HeartRate(Clock(t), msg.fields["value"])
  }

  /** The module-level lists `timestamps` and `y_data`. */
  class HeartRateStream {
    var timestamps: seq<Label>
    var yData: seq<Json>
    /** Every label and every value accepted so far, oldest first. */
    ghost var stampsSeen: seq<Label>
    ghost var valuesSeen: seq<Json>

    /** The two lists are the last 20 of all accepted labels and values. */
    ghost predicate Valid()
      reads this
    {
      |stampsSeen| == |valuesSeen| &&
      timestamps == LastN(stampsSeen, Kept) && yData == LastN(valuesSeen, Kept)
    }

    constructor ()
      ensures Valid() && timestamps == [] && yData == [] && stampsSeen == [] && valuesSeen == []
    {
      timestamps, yData := [], [];
      stampsSeen, valuesSeen := [], [];
    }

    /**
     * `on_message(msg)`. An accepted message appends to both lists and cuts
     * them to their last 20; anything else leaves them as they were. After n
     * accepted messages both lists hold the last min(n, 20) labels and values.
     */
    method OnMessage(msg: Json) returns (r: Reading)
      requires Valid()
      modifies this
      ensures Valid()
      ensures r == ReadMessage(msg)
      ensures |timestamps| == |yData| <= Kept
      ensures r.HeartRate? ==>
        && timestamps == LastN(old(timestamps) + [r.stamp], Kept)
        && yData == LastN(old(yData) + [r.value], Kept)
        && stampsSeen == old(stampsSeen) + [r.stamp] && valuesSeen == old(valuesSeen) + [r.value]
      ensures !r.HeartRate? ==>
        timestamps == old(timestamps) && yData == old(yData) &&
        stampsSeen == old(stampsSeen) && valuesSeen == old(valuesSeen)
    {
      if !msg.JObject? {
        return Raised;
      }
      var data := msg.fields;
      if "type" !in data || data["type"] != JString("heart_rate") {
        return Ignored;
      }
      if "value" !in data {
        return Raised;
      }
      var sensorValue := data["value"];
      if "timestamp" !in data {
        return Raised;
      }
      var seconds := NumericValue(data["timestamp"]);
      if seconds.None? {
        return Raised;
      }
      var stamp := Clock(seconds.value);
      timestamps := timestamps + [stamp];
      yData := yData + [sensorValue];
      timestamps := LastN(timestamps, Kept);
      yData := LastN(yData, Kept);
      WindowOfWindow(stampsSeen, stamp, Kept);
      WindowOfWindow(valuesSeen, sensorValue, Kept);
      stampsSeen := stampsSeen + [stamp];
      valuesSeen := valuesSeen + [sensorValue];
      r := HeartRate(stamp, sensorValue);
    }
  }
}
