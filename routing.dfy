/** The path dispatch that both the sound-landscape `router` and the visualisation `echo` perform on
    a new connection: nine sensor streams, and three one-shot media uploads. */
module Routing {

  const SensorPaths: seq<string> :=
    ["/accelerometer", "/gyroscope", "/magnetometer", "/orientation", "/stepcounter",
     "/thermometer", "/lightsensor", "/proximity", "/geolocation"]

  datatype Handler =
    | SensorStream(sensorType: string)
    | Camera
    | Audio
    | ProAudio
    | NoHandler   // any other path: the connection gets no handler

  function Dispatch(path: string): (h: Handler)
    ensures h.SensorStream? <==> path in SensorPaths
    ensures h.SensorStream? ==> "/" + h.sensorType == path
    ensures h.SensorStream? ==> |path| >= 1 && h.sensorType == path[1..]
    ensures h == Camera <==> path == "/camera"
    ensures h == Audio <==> path == "/audio"
    ensures h == ProAudio <==> path == "/pro/audio"
  {
    if path in SensorPaths then
      assert |path| > 0 && path[0] == '/';
      assert path == [path[0]] + path[1..];
      SensorStream(path[1..])
    else if path == "/camera" then Camera
    else if path == "/audio" then Audio
    else if path == "/pro/audio" then ProAudio
    else NoHandler
  }
}
