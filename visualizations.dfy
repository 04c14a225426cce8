/** The visualisation server's sensor connections: every truthy decoded message joins a rolling
    window; from 50 items on, each new item plots the window and the window is cut back to its
    last 50 items. */
module Visualizations {
  import opened Json
  import opened Seqs

  const WindowSize := 50

  /** `if parsed_data:` after `parse_sensor_data`: a message that decodes (`Some`) to a truthy value.
      `null`, `false`, `0`, `""`, `[]` and `{}` are dropped like undecodable text. */
  predicate IsAccepted(m: Option<Value>)
  {
    m.Some? && Truthy(m.value)
  }

  /** The accepted messages of a connection, in arrival order. */
  function Accepted(messages: seq<Option<Value>>): (r: seq<Value>)
    ensures |r| <= |messages|
  {
    if messages == [] then []
    else
      var m := messages[|messages| - 1];
      Accepted(messages[..|messages| - 1]) + (if IsAccepted(m) then [m.value] else [])
  }

  /** Appending one message extends the accepted sequence by that message exactly when it is accepted. */
  lemma AcceptedSnoc(messages: seq<Option<Value>>, m: Option<Value>)
    ensures Accepted(messages + [m]) == Accepted(messages) + (if IsAccepted(m) then [m.value] else [])
  {
    assert (messages + [m])[..|messages|] == messages;
  }

  /** Accepted messages are taken in order and only from the connection: the items of `Accepted`
      are exactly the accepted messages' values. */
  lemma {:induction false} AcceptedMembers(messages: seq<Option<Value>>, v: Value)
    ensures v in Accepted(messages) <==> Some(v) in messages && Truthy(v)
  {
    if messages != [] {
      var init := messages[..|messages| - 1];
      var m := messages[|messages| - 1];
      assert messages == init + [m];
      AcceptedMembers(init, v);
    }
  }

  /** One message against the window `data_list`: the new window and the list plotted, if any. */
  function Step(window: seq<Value>, m: Option<Value>): (seq<Value>, Option<seq<Value>>)
  {
    if !IsAccepted(m) then (window, None)
    else
      var w := window + [m.value];
      if |w| >= WindowSize then (w[|w| - WindowSize..], Some(w)) else (w, None)
  }

  /** A window holding the last 50 accepted messages stays so after one more message, and a plot
      is the last 51 of them, drawn once at least 50 have been accepted. */
  lemma StepKeepsWindow(before: seq<Value>, window: seq<Value>, m: Option<Value>)
    requires window == Last(before, WindowSize)
    ensures var after := before + (if IsAccepted(m) then [m.value] else []);
      && Step(window, m).0 == Last(after, WindowSize)
      && (Step(window, m).1.Some? <==> IsAccepted(m) && |after| >= WindowSize)
      && (Step(window, m).1.Some? ==> Step(window, m).1.value == Last(after, WindowSize + 1))
  {
    if IsAccepted(m) {
      var w := window + [m.value];
      LastOfLast(before, [m.value], WindowSize, WindowSize + 1);
      LastOfLast(before, [m.value], WindowSize, WindowSize);
      if |w| < WindowSize {
        assert Last(before + [m.value], WindowSize) == before + [m.value];
      }
    } else {
      assert before + [] == before;
    }
  }

  /** What the last message of `received` plots: when it is accepted and at least 50 messages have
      been accepted so far, the last 51 of those; otherwise nothing. */
  function PlotAfter(received: seq<Option<Value>>): Option<seq<Value>>
    requires received != []
  {
    var acc := Accepted(received);
    if IsAccepted(received[|received| - 1]) && |acc| >= WindowSize then Some(Last(acc, WindowSize + 1)) else None
  }

  /** What a connection plots, message by message: entry `j` is what message `j` plots. */
  function Plots(messages: seq<Option<Value>>): (r: seq<Option<seq<Value>>>)
    ensures |r| == |messages|
  {
    if messages == [] then []
    else Plots(messages[..|messages| - 1]) + [PlotAfter(messages)]
  }

  /** Entry `j` of `Plots` depends only on the first `j + 1` messages. */
  lemma {:induction false} PlotsAt(messages: seq<Option<Value>>, j: nat)
    requires j < |messages|
    ensures Plots(messages)[j] == PlotAfter(messages[..j + 1])
  {
    var n := |messages| - 1;
    var init := messages[..n];
    assert Plots(messages) == Plots(init) + [PlotAfter(messages)];
    if j < n {
      PlotsAt(init, j);
      assert init[..j + 1] == messages[..j + 1];
    } else {
      assert messages[..j + 1] == messages;
    }
  }

  /** One more message `m` against a window holding the last 50 messages accepted from `received`:
      the step plots what `PlotAfter` prescribes, which extends `Plots` by one entry, and leaves the
      last 50 accepted so far. */
  lemma StepAt(received: seq<Option<Value>>, m: Option<Value>, window: seq<Value>)
    requires window == Last(Accepted(received), WindowSize)
    ensures Step(window, m).1 == PlotAfter(received + [m])
    ensures Step(window, m).0 == Last(Accepted(received + [m]), WindowSize)
    ensures Plots(received + [m]) == Plots(received) + [Step(window, m).1]
  {
    var all := received + [m];
    assert all[..|all| - 1] == received;
    assert all[|all| - 1] == m;
    AcceptedSnoc(received, m);
    StepKeepsWindow(Accepted(received), window, m);
  }

  /** `process_sensor_data` over the messages of one connection. `window` is `data_list` when the
      connection closes; `plots[i]` is the list handed to `plot_sensor_data` while handling message
      `i`, or `None` when that message is not plotted. */
  method ProcessSensorData(messages: seq<Option<Value>>) returns (window: seq<Value>, plots: seq<Option<seq<Value>>>)
    ensures window == Last(Accepted(messages), WindowSize)
    ensures plots == Plots(messages)
  {
    window := [];
    plots := [];
    var i := 0;
    while i < |messages|
      invariant 0 <= i <= |messages| && |plots| == i
      invariant window == Last(Accepted(messages[..i]), WindowSize)
      invariant plots == Plots(messages[..i])
    {
      var m := messages[i];
      assert messages[..i + 1] == messages[..i] + [m];
      StepAt(messages[..i], m, window);
      ghost var prev := window;
      var plot: Option<seq<Value>> := None;
      if IsAccepted(m) {
        window := window + [m.value];
        if |window| >= WindowSize {
          plot := Some(window);
          window := window[|window| - WindowSize..];
        }
      }
      assert (window, plot) == Step(prev, m);
      plots := plots + [plot];
      i := i + 1;
    }
    assert messages[..i] == messages;
  }

  /** Message `i` of a connection plots exactly when it is accepted and at least 50 messages have
      been accepted up to and including it, and the plot is the last 51 of those. */
  lemma PlotsSpec(messages: seq<Option<Value>>, i: nat)
    requires i < |messages|
    ensures Plots(messages)[i].Some? <==> IsAccepted(messages[i]) && |Accepted(messages[..i + 1])| >= WindowSize
    ensures Plots(messages)[i].Some? ==> Plots(messages)[i].value == Last(Accepted(messages[..i + 1]), WindowSize + 1)
  {
    PlotsAt(messages, i);
    assert messages[..i + 1][i] == messages[i];
  }

  /** A connection opens with an empty window: the first 49 accepted messages draw nothing, the 50th
      plots exactly the 50 accepted so far, and every later accepted message plots the latest 51. */
  lemma PlotSizes(messages: seq<Option<Value>>, i: nat)
    requires i < |messages| && IsAccepted(messages[i])
    ensures var n := |Accepted(messages[..i + 1])|;
      && (n == WindowSize ==> Last(Accepted(messages[..i + 1]), WindowSize + 1) == Accepted(messages[..i + 1]))
      && (n > WindowSize ==> |Last(Accepted(messages[..i + 1]), WindowSize + 1)| == WindowSize + 1)
  {
  }
}
