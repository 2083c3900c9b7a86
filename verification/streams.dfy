/** The reference-counted trade streams of `go/binanceex/tradestreammanager.go`: the counts under the lock, and
    the stream goroutines as program counters that take one atomic step at a time. */
module Streams {

  function LowerChar(c: char): char {
    if 'A' <= c <= 'Z' then (c as int + 32) as char else c
  }

  /** `strings.ToLower` on the ASCII symbols of the exchange. */
  function ToLower(s: string): string {
    if s == "" then "" else ToLower(s[..|s| - 1]) + [LowerChar(s[|s| - 1])]
  }

  type Counts = map<string, nat>

  function AddCount(counts: Counts, symbol: string): Counts {
    var name := ToLower(symbol);
    if name in counts then counts[name := counts[name] + 1] else counts[name := 1]
  }

  function RemoveCount(counts: Counts, symbol: string): Counts {
    var name := ToLower(symbol);
    if name !in counts then counts
    else if counts[name] > 1 then counts[name := counts[name] - 1]
    else counts - {name}
  }

  /** `streamRefCount` */
  function RefCount(counts: Counts, name: string): nat {
    if name in counts then counts[name] else 0
  }

  /** Where a stream goroutine stands: about to test the count, opening the connection, sleeping before a retry,
      waiting for a message, about to test the count again, handing the message out, decided to exit, gone. */
  datatype Pc = Retry | Opening | Sleeping | Reading | Checking | Delivering | Closing | Exited

  datatype Runner = Runner(name: string, pc: Pc) {
    predicate Alive() {
      pc != Closing && pc != Exited
    }
  }

  /** One atomic step, given the reference count the goroutine would read and whether its I/O succeeds. */
  function NextPc(pc: Pc, count: nat, ok: bool): Pc {
    match pc
    case Retry => if count == 0 then Exited else Opening
    case Opening => if ok then Reading else Sleeping
    case Sleeping => Retry
    case Reading => if ok then Checking else Sleeping
    case Checking => if count == 0 then Closing else Delivering
    case Delivering => Reading
    case Closing => Exited
    case Exited => Exited
  }

  datatype StreamState = StreamState(counts: Counts, runners: seq<Runner>)

  datatype Action = Add(symbol: string) | Remove(symbol: string) | Advance(i: nat, ok: bool)

  function StreamStep(s: StreamState, a: Action): StreamState {
    match a
    case Add(symbol) =>
      var name := ToLower(symbol);
      StreamState(AddCount(s.counts, symbol), if name in s.counts then s.runners else s.runners + [Runner(name, Retry)])
    case Remove(symbol) => s.(counts := RemoveCount(s.counts, symbol))
    case Advance(i, ok) =>
      if i >= |s.runners| then s
      else
        var r := s.runners[i];
        s.(runners := s.runners[i := r.(pc := NextPc(r.pc, RefCount(s.counts, r.name), ok))])
  }

  function StreamRun(s: StreamState, actions: seq<Action>): StreamState {
    if actions == [] then s else StreamStep(StreamRun(s, actions[..|actions| - 1]), actions[|actions| - 1])
  }

  class TradeStreamManager {
    var streamCount: Counts
    /** The goroutines started so far. */
    var runners: seq<Runner>

    function View(): StreamState
      reads this
    {
      StreamState(streamCount, runners)
    }

    constructor ()
      ensures View() == StreamState(map[], [])
    {
      streamCount := map[];
      runners := [];
    }

    method AddSymbol(symbol: string)
      modifies this
      ensures View() == StreamStep(old(View()), Add(symbol))
    {
      var name := ToLower(symbol);
      if name in streamCount {
        streamCount := streamCount[name := streamCount[name] + 1];
        return;
      }
      streamCount := streamCount[name := 1];
      runners := runners + [Runner(name, Retry)];
    }

    method RemoveSymbol(symbol: string)
      modifies this`streamCount
      ensures View() == StreamStep(old(View()), Remove(symbol))
    {
      var name := ToLower(symbol);
      if name !in streamCount {
        return;
      }
      var count := streamCount[name];
      if count > 1 {
        streamCount := streamCount[name := count - 1];
      } else {
        streamCount := streamCount - {name};
      }
    }

    method StreamRefCount(name: string) returns (count: nat)
      ensures count == RefCount(streamCount, name)
    {
      if name in streamCount {
        return streamCount[name];
      }
      return 0;
    }

    /** One step of the `i`-th goroutine through `runStream`; `ok` is the outcome of opening, respectively reading. */
    method RunStream(i: nat, ok: bool)
      requires i < |runners|
      modifies this`runners
      ensures View() == StreamStep(old(View()), Advance(i, ok))
    {
      var runner := runners[i];
      var pc := runner.pc;
      if pc == Retry {
        var count := StreamRefCount(runner.name);
        pc := if count == 0 then Exited else Opening;
      } else if pc == Opening {
        pc := if ok then Reading else Sleeping;
      } else if pc == Sleeping {
        pc := Retry;
      } else if pc == Reading {
        pc := if ok then Checking else Sleeping;
      } else if pc == Checking {
        var count := StreamRefCount(runner.name);
        pc := if count == 0 then Closing else Delivering;
      } else if pc == Delivering {
        pc := Reading;
      } else {
        pc := Exited;
      }
      runners := runners[i := runner.(pc := pc)];
    }
  }

  // ---------- no stream is lost ----------

  ghost predicate Served(s: StreamState, name: string) {
    exists i :: 0 <= i < |s.runners| && s.runners[i].name == name && s.runners[i].Alive()
  }

  /** Every stored count is positive, and every counted symbol has a goroutine that has not decided to exit. */
  ghost predicate AllServed(s: StreamState) {
    forall name | name in s.counts :: s.counts[name] >= 1 && Served(s, name)
  }

  lemma StepKeepsServed(s: StreamState, a: Action)
    requires AllServed(s)
    ensures AllServed(StreamStep(s, a))
  {
    var u := StreamStep(s, a);
    forall name | name in u.counts ensures u.counts[name] >= 1 && Served(u, name) {
      if name in s.counts {
        var i :| 0 <= i < |s.runners| && s.runners[i].name == name && s.runners[i].Alive();
        assert u.runners[i].name == name && u.runners[i].Alive();
      } else {
        assert u.runners[|s.runners|] == Runner(name, Retry);
      }
    }
  }

  /** No interleaving of additions, removals and goroutine steps loses a stream. */
  lemma {:induction false} NoLostStream(s: StreamState, actions: seq<Action>)
    requires AllServed(s)
    ensures AllServed(StreamRun(s, actions))
  {
    if actions != [] {
      NoLostStream(s, actions[..|actions| - 1]);
      StepKeepsServed(StreamRun(s, actions[..|actions| - 1]), actions[|actions| - 1]);
    }
  }

  // ---------- abandoned streams end ----------

  /** How many own steps a goroutine can still take while its symbol is not counted. */
  function Remaining(pc: Pc): nat {
    match pc
    case Exited => 0
    case Closing => 1
    case Retry => 1
    case Sleeping => 2
    case Checking => 2
    case Reading => 3
    case Opening => 4
    case Delivering => 4
  }

  function OwnSteps(actions: seq<Action>, i: nat): nat {
    if actions == [] then 0
    else
      var a := actions[|actions| - 1];
      OwnSteps(actions[..|actions| - 1], i) + if a.Advance? && a.i == i then 1 else 0
  }

  ghost predicate NeverAdds(actions: seq<Action>, name: string) {
    forall i | 0 <= i < |actions| :: actions[i].Add? ==> ToLower(actions[i].symbol) != name
  }

  /** Once its symbol is dropped for good, a goroutine exits within four of its own steps, whatever happens in
      between. */
  lemma {:induction false} DroppedStreamEnds(s: StreamState, actions: seq<Action>, i: nat)
    requires i < |s.runners| && s.runners[i].name !in s.counts && NeverAdds(actions, s.runners[i].name)
    ensures var u := StreamRun(s, actions);
            && i < |u.runners| && u.runners[i].name == s.runners[i].name && u.runners[i].name !in u.counts
            && (u.runners[i].pc == Exited
                || Remaining(u.runners[i].pc) + OwnSteps(actions, i) <= Remaining(s.runners[i].pc))
    ensures OwnSteps(actions, i) >= 4 ==> StreamRun(s, actions).runners[i].pc == Exited
  {
    if actions != [] {
      DroppedStreamEnds(s, actions[..|actions| - 1], i);
    }
  }

  /** A goroutine has its connection open from the moment it waits for messages until it closes it. */
  predicate Connected(pc: Pc) {
    pc == Reading || pc == Checking || pc == Delivering || pc == Closing
  }

  /** Of all goroutines, a step disconnects only the one that takes it, and that one because reading failed or because it
      had found its symbol not counted and decided to close; none exits while connected. */
  lemma DisconnectsIff(s: StreamState, a: Action, i: nat)
    requires i < |s.runners| && Connected(s.runners[i].pc)
    ensures var u := StreamStep(s, a).runners[i].pc;
            && (!Connected(u) <==> OwnStep(s, a, i) && (s.runners[i].pc == Closing || (s.runners[i].pc == Reading && !a.ok)))
            && (u == Closing && s.runners[i].pc != Closing ==> RefCount(s.counts, s.runners[i].name) == 0)
            && (u == Exited ==> s.runners[i].pc == Closing)
  {
    hide ToLower, AddCount, RemoveCount;
  }

  // ---------- duplicate streams ----------

  ghost predicate AtMostOne(s: StreamState, name: string) {
    forall i, j | 0 <= i < |s.runners| && 0 <= j < |s.runners| && i != j
      && s.runners[i].name == name && s.runners[j].name == name ::
      !s.runners[i].Alive() || !s.runners[j].Alive()
  }

  /** The symbol is added back while a goroutine that was to exit has not noticed yet. */
  ghost predicate AddedTooSoon(s: StreamState, a: Action, name: string) {
    a.Add? && ToLower(a.symbol) == name && name !in s.counts && Served(s, name)
  }

  /** A symbol keeps at most one live goroutine exactly until it is added back too soon. */
  lemma SecondStreamIffAddedTooSoon(s: StreamState, a: Action, name: string)
    requires AtMostOne(s, name)
    ensures AtMostOne(StreamStep(s, a), name) <==> !AddedTooSoon(s, a, name)
  {
    var u := StreamStep(s, a);
    if AddedTooSoon(s, a, name) {
      var i :| 0 <= i < |s.runners| && s.runners[i].name == name && s.runners[i].Alive();
      var n := |s.runners|;
      assert u.runners[i] == s.runners[i] && u.runners[n] == Runner(name, Retry);
    } else {
      forall i, j | 0 <= i < |u.runners| && 0 <= j < |u.runners| && i != j
                    && u.runners[i].name == name && u.runners[j].name == name
        ensures !u.runners[i].Alive() || !u.runners[j].Alive()
      {
        if i < |s.runners| && j < |s.runners| {
          assert !s.runners[i].Alive() || !s.runners[j].Alive();
        }
      }
    }
  }

  lemma RunPrefix(s: StreamState, actions: seq<Action>, k: nat)
    requires k < |actions|
    ensures StreamRun(s, actions[..k + 1]) == StreamStep(StreamRun(s, actions[..k]), actions[k])
  {
    assert actions[..k + 1][..k] == actions[..k];
  }

  ghost predicate NeverAddedTooSoon(s: StreamState, actions: seq<Action>, name: string) {
    forall k | 0 <= k < |actions| :: !AddedTooSoon(StreamRun(s, actions[..k]), actions[k], name)
  }

  ghost predicate AtMostOneThroughout(s: StreamState, actions: seq<Action>, name: string) {
    forall k | 0 <= k <= |actions| :: AtMostOne(StreamRun(s, actions[..k]), name)
  }

  lemma {:induction false} PrefixAtMostOne(s: StreamState, actions: seq<Action>, name: string, k: nat)
    requires AtMostOne(s, name) && NeverAddedTooSoon(s, actions, name) && k <= |actions|
    ensures AtMostOne(StreamRun(s, actions[..k]), name)
  {
    if k > 0 {
      hide AtMostOne, AddedTooSoon, StreamStep;
      PrefixAtMostOne(s, actions, name, k - 1);
      RunPrefix(s, actions, k - 1);
      SecondStreamIffAddedTooSoon(StreamRun(s, actions[..k - 1]), actions[k - 1], name);
    }
  }

  /** Over every run of additions, removals and goroutine steps: a symbol has at most one live goroutine all along if
      and only if it is never added back while one that was to exit has not noticed. */
  lemma OneStreamIffNeverAddedTooSoon(s: StreamState, actions: seq<Action>, name: string)
    requires AtMostOne(s, name)
    ensures AtMostOneThroughout(s, actions, name) <==> NeverAddedTooSoon(s, actions, name)
  {
    hide AtMostOne, AddedTooSoon, StreamStep, StreamRun;
    if NeverAddedTooSoon(s, actions, name) {
      forall k | 0 <= k <= |actions| ensures AtMostOne(StreamRun(s, actions[..k]), name) {
        PrefixAtMostOne(s, actions, name, k);
      }
    }
    if AtMostOneThroughout(s, actions, name) {
      forall k | 0 <= k < |actions| ensures !AddedTooSoon(StreamRun(s, actions[..k]), actions[k], name) {
        RunPrefix(s, actions, k);
        assert AtMostOne(StreamRun(s, actions[..k]), name) && AtMostOne(StreamRun(s, actions[..k + 1]), name);
        SecondStreamIffAddedTooSoon(StreamRun(s, actions[..k]), actions[k], name);
      }
    }
  }

  /** Three calls reach a state with two live goroutines for one symbol. */
  lemma TwoStreamsForOneSymbol(symbol: string)
    ensures var s := StreamStep(StreamStep(StreamStep(StreamState(map[], []), Add(symbol)), Remove(symbol)), Add(symbol));
            !AtMostOne(s, ToLower(symbol))
  {
    var name := ToLower(symbol);
    var s1 := StreamStep(StreamState(map[], []), Add(symbol));
    var s2 := StreamStep(s1, Remove(symbol));
    assert s2.runners == [Runner(name, Retry)] && name !in s2.counts;
    var s3 := StreamStep(s2, Add(symbol));
    assert s3.runners[0].Alive() && s3.runners[1].Alive();
  }

  // ---------- counted streams deliver ----------

  /** Where a goroutine stands in its round: three steps from waiting for a message to handing it out, and three from a
      retry to waiting. */
  function Phase(pc: Pc): int
    requires pc != Closing && pc != Exited
  {
    match pc
    case Sleeping => -3
    case Retry => -2
    case Opening => -1
    case Reading => 0
    case Checking => 1
    case Delivering => 2
  }

  /** How many steps a failure costs, the failed one included: it sends the goroutine back to sleep. */
  function Setback(pc: Pc, ok: bool): nat {
    if ok then 0 else if pc == Opening then 3 else if pc == Reading then 4 else 0
  }

  predicate OwnStep(s: StreamState, a: Action, i: nat) {
    a.Advance? && a.i == i && i < |s.runners|
  }

  /** The messages the goroutine hands out over a run. */
  function Deliveries(s: StreamState, actions: seq<Action>, i: nat): nat {
    if actions == [] then 0
    else
      var before, a := StreamRun(s, actions[..|actions| - 1]), actions[|actions| - 1];
      Deliveries(s, actions[..|actions| - 1], i)
      + if OwnStep(before, a, i) && before.runners[i].pc == Delivering then 1 else 0
  }

  function Setbacks(s: StreamState, actions: seq<Action>, i: nat): nat {
    if actions == [] then 0
    else
      var before, a := StreamRun(s, actions[..|actions| - 1]), actions[|actions| - 1];
      Setbacks(s, actions[..|actions| - 1], i)
      + if OwnStep(before, a, i) then Setback(before.runners[i].pc, a.ok) else 0
  }

  /** Throughout the run the symbol is counted. */
  ghost predicate CountedThroughout(s: StreamState, actions: seq<Action>, name: string) {
    forall k | 0 <= k <= |actions| :: RefCount(StreamRun(s, actions[..k]).counts, name) > 0
  }

  lemma StreamProgress(s: StreamState, a: Action, i: nat)
    requires i < |s.runners| && s.runners[i].Alive() && RefCount(s.counts, s.runners[i].name) > 0
    ensures var u := StreamStep(s, a);
            && i < |u.runners| && u.runners[i].name == s.runners[i].name && u.runners[i].Alive()
            && Phase(u.runners[i].pc) ==
                 Phase(s.runners[i].pc)
                 + if !OwnStep(s, a, i) then 0
                   else 1 - Setback(s.runners[i].pc, a.ok) - if s.runners[i].pc == Delivering then 3 else 0
  {
    hide ToLower, AddCount, RemoveCount;
  }

  /** While its symbol stays counted a goroutine stays alive, whatever happens in between, and every three of its own steps
      that no failure costs it hand out one message. */
  lemma {:induction false} CountedStreamDelivers(s: StreamState, actions: seq<Action>, i: nat)
    requires i < |s.runners| && s.runners[i].Alive() && CountedThroughout(s, actions, s.runners[i].name)
    ensures var u := StreamRun(s, actions);
            && i < |u.runners| && u.runners[i].name == s.runners[i].name && u.runners[i].Alive()
            && 3 * Deliveries(s, actions, i) ==
                 OwnSteps(actions, i) - Setbacks(s, actions, i) + Phase(s.runners[i].pc) - Phase(u.runners[i].pc)
  {
    if actions != [] {
      hide StreamStep, Phase, Setback;
      var n := |actions| - 1;
      assert forall k | 0 <= k <= n :: actions[..n][..k] == actions[..k];
      assert RefCount(StreamRun(s, actions[..n]).counts, s.runners[i].name) > 0;
      CountedStreamDelivers(s, actions[..n], i);
      StreamProgress(StreamRun(s, actions[..n]), actions[n], i);
    }
  }

  // ---------- names ----------

  /** Two symbols share a stream exactly when they differ at most in the case of their letters. */
  lemma {:induction false} SameStreamIff(a: string, b: string)
    ensures ToLower(a) == ToLower(b) <==>
            |a| == |b| && forall k | 0 <= k < |a| :: a[k] == b[k] || SameLetter(a[k], b[k]) || SameLetter(b[k], a[k])
  {
    LowerLength(a);
    LowerLength(b);
    if a != [] && |a| == |b| {
      var n := |a| - 1;
      SameStreamIff(a[..n], b[..n]);
      assert ToLower(a)[..n] == ToLower(a[..n]) && ToLower(b)[..n] == ToLower(b[..n]);
      assert ToLower(a)[n] == LowerChar(a[n]) && ToLower(b)[n] == LowerChar(b[n]);
    }
  }

  predicate SameLetter(lower: char, upper: char) {
    'a' <= lower <= 'z' && upper as int == lower as int - 'a' as int + 'A' as int
  }

  lemma {:induction false} LowerLength(s: string)
    ensures |ToLower(s)| == |s|
  {
    if s != [] { LowerLength(s[..|s| - 1]); }
  }
}
