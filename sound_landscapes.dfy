/** The sound-landscape server: a per-sensor history of the last 100 decoded messages, a
    visualisation request whenever a history's length is a multiple of 50, and the mapping of a
    motion reading to the three tones the mixer plays. */
module SoundLandscapes {
  import opened Json
  import opened Seqs
  import Routing

  /** The keys of `sensor_data`, in the order the server lists them. */
  const SensorTypes: seq<string> :=
    ["accelerometer", "gyroscope", "magnetometer", "orientation", "stepcounter",
     "thermometer", "lightsensor", "proximity", "geolocation"]

  /** The sensors whose messages also retune the sound. */
  const ToneSensors: seq<string> := ["accelerometer", "gyroscope", "magnetometer"]

  const HistoryCap := 100
  const VisualiseEvery := 50

  // ---------------------------------------------------------------- routing

  /** Every path the router hands to `handle_sensor_data` names a key of `sensor_data`, so the
      handler's lookup cannot fail. */
  lemma RouterReachesKnownSensors(path: string)
    ensures Routing.Dispatch(path).SensorStream? ==> Routing.Dispatch(path).sensorType in SensorTypes
  {
    if path in Routing.SensorPaths {
      var i :| 0 <= i < |Routing.SensorPaths| && Routing.SensorPaths[i] == path;
      assert Routing.SensorPaths[i][1..] == SensorTypes[i];
    }
  }

  // ---------------------------------------------------------------- tone

  /** The three channel frequencies and the common volume. */
  datatype Tone = Tone(frequencies: seq<real>, amplitude: real)

  /** What the three channels play after `__init__`: 440, 550 and 660 Hz at volume 0.3. */
  const InitialTone := Tone([440.0, 550.0, 660.0], 0.3)

  /** The tone a motion message asks for; `None` when reading an axis raises (the message is not an
      object, or an axis is not convertible), in which case `update_sound` only reports the error.
      A missing axis reads as 0. */
  function ToneOf(data: Value): (t: Option<Tone>)
    ensures t.Some? <==> GetFloat(data, "x").Some? && GetFloat(data, "y").Some? && GetFloat(data, "z").Some?
    ensures t.Some? ==> |t.value.frequencies| == 3 && t.value.amplitude >= 0.0
  {
    var x, y, z := GetFloat(data, "x"), GetFloat(data, "y"), GetFloat(data, "z");
    if x.None? || y.None? || z.None? then None
    else
      var x, y, z := x.value, y.value, z.value;
      Some(Tone([220.0 + (x + 1.0) * 220.0, 440.0 + (y + 1.0) * 220.0, 660.0 + (z + 1.0) * 220.0],
                (Abs(x) + Abs(y) + Abs(z)) / 3.0 * 0.5))
  }

  /** The frequencies determine the reading: each axis is recovered from its channel, and the volume
      is half the mean magnitude of the recovered axes; so the volume is 0 exactly at rest. */
  lemma ToneDeterminesReading(data: Value)
    requires ToneOf(data).Some?
    ensures var t := ToneOf(data).value;
      var x, y, z := GetFloat(data, "x").value, GetFloat(data, "y").value, GetFloat(data, "z").value;
      && t.frequencies[0] / 220.0 - 2.0 == x
      && t.frequencies[1] / 220.0 - 3.0 == y
      && t.frequencies[2] / 220.0 - 4.0 == z
      && t.amplitude == (Abs(x) + Abs(y) + Abs(z)) / 6.0
      && (t.amplitude == 0.0 <==> x == 0.0 && y == 0.0 && z == 0.0)
  {
  }

  /** A message with none of the axes (an empty object) plays 440, 660 and 880 Hz, silently. */
  lemma ToneOfEmptyMessage()
    ensures ToneOf(JObject(map[])) == Some(Tone([440.0, 660.0, 880.0], 0.0))
  {
  }

  // ---------------------------------------------------------------- history

  /** `sensor_data[t].append(data)` and, past 100 entries, `sensor_data[t] = sensor_data[t][-100:]`. */
  function Store(history: seq<Value>, data: Value): (r: seq<Value>)
    ensures r == Last(history + [data], HistoryCap)
  {
    var h := history + [data];
    if |h| > HistoryCap then h[|h| - HistoryCap..] else h
  }

  /** One accepted message of sensor `t`. */
  function Record(data: map<string, seq<Value>>, t: string, message: Value): (r: map<string, seq<Value>>)
    requires t in data
    ensures r.Keys == data.Keys
    ensures forall k :: k in data && k != t ==> r[k] == data[k]
  {
    data[t := Store(data[t], message)]
  }

  /** A stream of messages, possibly from several connections interleaved; `None` is a message
      `json.loads` rejected, which is skipped. */
  function Feed(data: map<string, seq<Value>>, messages: seq<(string, Option<Value>)>): (r: map<string, seq<Value>>)
    requires forall i :: 0 <= i < |messages| ==> messages[i].0 in data
    ensures r.Keys == data.Keys
    decreases |messages|
  {
    if messages == [] then data
    else
      var (t, m) := messages[0];
      var next := if m.Some? then Record(data, t, m.value) else data;
      Feed(next, messages[1..])
  }

  /** The accepted messages of sensor `k`, in arrival order. */
  function MessagesOf(messages: seq<(string, Option<Value>)>, k: string): seq<Value>
  {
    if messages == [] then []
    else
      (if messages[0].0 == k && messages[0].1.Some? then [messages[0].1.value] else [])
      + MessagesOf(messages[1..], k)
  }

  /** After any stream of messages, each sensor's history is the last (at most) 100 of what it held
      followed by its own accepted messages, in order; messages of other sensors leave it alone. */
  lemma {:induction false} FeedKeepsLastMessages(data: map<string, seq<Value>>, messages: seq<(string, Option<Value>)>, k: string)
    requires forall i :: 0 <= i < |messages| ==> messages[i].0 in data
    requires k in data && |data[k]| <= HistoryCap
    ensures Feed(data, messages)[k] == Last(data[k] + MessagesOf(messages, k), HistoryCap)
    decreases |messages|
  {
    if messages == [] {
      assert data[k] + [] == data[k];
    } else {
      var (t, m) := messages[0];
      var next := if m.Some? then Record(data, t, m.value) else data;
      var first := if t == k && m.Some? then [m.value] else [];
      var rest := MessagesOf(messages[1..], k);
      assert MessagesOf(messages, k) == first + rest;
      assert next[k] == Last(data[k] + first, HistoryCap);
      assert forall i :: 0 <= i < |messages| - 1 ==> messages[1..][i] == messages[i + 1];
      FeedKeepsLastMessages(next, messages[1..], k);
      LastTwice(data[k], first, rest, HistoryCap);
    }
  }

  /** Starting from an empty history, the n-th message of a sensor (n >= 1) requests a visualisation
      exactly when n == 50 or n >= 100: once the history is full, on every message. */
  lemma VisualiseSchedule(messages: seq<Value>)
    requires |messages| >= 1
    ensures |Last(messages, HistoryCap)| % VisualiseEvery == 0 <==> |messages| == 50 || |messages| >= 100
  {
    var n := |messages|;
    if n < 100 {
      assert |Last(messages, HistoryCap)| == n;
      if n % 50 == 0 {
        assert n == 50 * (n / 50);
        assert n / 50 == 1;
      }
    }
  }

  // ---------------------------------------------------------------- the server object

  class SensorServer {
    var sensorData: map<string, seq<Value>>
    var tone: Tone

    ghost predicate Valid()
      reads this
    {
      && (forall t :: t in sensorData <==> t in SensorTypes)
      && (forall t :: t in sensorData ==> |sensorData[t]| <= HistoryCap)
    }

    /** Every sensor starts without history, and the channels play the initial tone. */
    constructor ()
      ensures Valid() && tone == InitialTone
      ensures forall t :: t in SensorTypes ==> t in sensorData && sensorData[t] == []
    {
      sensorData := map t | t in SensorTypes :: [];
      tone := InitialTone;
    }

    /** `update_sound(data)`: retune on a readable message, otherwise only report the error. */
    method UpdateSound(data: Value)
      modifies this`tone
      ensures tone == if ToneOf(data).Some? then ToneOf(data).value else old(tone)
    {
      var t := ToneOf(data);
      if t.Some? {
        tone := t.value;
      }
    }

    /** One message of a sensor stream, as `json.loads` left it. A `JSONDecodeError` is caught and
        changes nothing; any other failure of `json.loads` ends the connection (`keepOpen` false) and
        changes nothing. `visualise` says whether `generate_visualization` is called for this sensor. */
    method HandleSensorData(sensorType: string, message: Loaded) returns (visualise: bool, keepOpen: bool)
      requires Valid() && sensorType in SensorTypes
      modifies this
      ensures Valid()
      ensures keepOpen <==> !message.LoadFailure?
      ensures sensorData == if message.Parsed? then Record(old(sensorData), sensorType, message.value) else old(sensorData)
      ensures tone == if message.Parsed? && sensorType in ToneSensors && ToneOf(message.value).Some?
                      then ToneOf(message.value).value else old(tone)
      ensures visualise <==> message.Parsed? && |sensorData[sensorType]| % VisualiseEvery == 0
    {
      if !message.Parsed? {
        return false, !message.LoadFailure?;
      }
      keepOpen := true;
      var data := message.value;
      var history := sensorData[sensorType] + [data];
      if |history| > HistoryCap {
        history := history[|history| - HistoryCap..];
      }
      assert history == Store(sensorData[sensorType], data);
      sensorData := sensorData[sensorType := history];
      if sensorType in ToneSensors {
        UpdateSound(data);
      }
      visualise := |sensorData[sensorType]| % VisualiseEvery == 0;
    }
  }
}
