/** The loop that turns bus signals into inbound messages for one bound owner and one modem.

    The backend is scripted: `backend` holds what the coming reads will give, and the
    stream ends after it. */
module InboundSubscriptions {
  import opened Wrappers

  const MM_DESTINATION := "org.freedesktop.ModemManager1"

  datatype ProtocolSignal =
    | Added(sender: Option<string>, signalPath: Option<string>, smsPath: string, isReceived: bool)
    | NameOwnerChanged(name: string, oldOwner: string, newOwner: string)
    | InterfacesRemoved(remover: Option<string>, removedPath: string)
    | Unrelated

  type ReadError = nat

  datatype Reading = Signal(signal: ProtocolSignal) | Failed(error: ReadError)

  datatype Terminal = StreamEnded | OwnerChanged | ModemRemoved

  /** What one call of `next` returns. */
  datatype Answer = Sms(path: string) | BackendError(error: ReadError) | Closed(reason: Terminal)

  datatype Binding = Binding(owner: string, modemPath: string)

  predicate ModemOwnerChanged(name: string, oldOwner: string, newOwner: string) {
    name == MM_DESTINATION && oldOwner != newOwner
  }

  // ---------- What a stream of readings means ----------

  predicate IsOurSms(b: Binding, r: Reading) {
    && r.Signal? && r.signal.Added?
    && r.signal.sender == Some(b.owner) && r.signal.signalPath == Some(b.modemPath) && r.signal.isReceived
  }

  function Ends(b: Binding, r: Reading): Option<Terminal> {
    if !r.Signal? then None
    else
      match r.signal
      case NameOwnerChanged(name, old', new') => if ModemOwnerChanged(name, old', new') then Some(OwnerChanged) else None
      case InterfacesRemoved(remover, path) =>
        if remover == Some(b.owner) && path == b.modemPath then Some(ModemRemoved) else None
      case _ => None
  }

  /** The place of the first reading that closes the subscription, or the end of the stream. */
  function ClosingPlace(b: Binding, stream: seq<Reading>): (i: nat)
    ensures i <= |stream|
    ensures forall j :: 0 <= j < i ==> Ends(b, stream[j]).None?
    ensures i < |stream| ==> Ends(b, stream[i]).Some?
  {
    if stream == [] || Ends(b, stream[0]).Some? then 0 else 1 + ClosingPlace(b, stream[1..])
  }

  /** Our messages and the read errors among some readings, in order. */
  function Heard(b: Binding, stream: seq<Reading>): seq<Answer> {
    if stream == [] then []
    else
      (if stream[0].Failed? then [BackendError(stream[0].error)]
       else if IsOurSms(b, stream[0]) then [Sms(stream[0].signal.smsPath)] else [])
      + Heard(b, stream[1..])
  }

  function Reason(b: Binding, stream: seq<Reading>): Terminal {
    var i := ClosingPlace(b, stream);
    if i < |stream| then Ends(b, stream[i]).value else StreamEnded
  }

  /** All that a subscription will ever say. */
  function Answers(b: Binding, stream: seq<Reading>): seq<Answer> {
    Heard(b, stream[..ClosingPlace(b, stream)]) + [Closed(Reason(b, stream))]
  }

  // ---------- The subscription ----------

  datatype State = State(terminal: Option<Terminal>, backend: seq<Reading>, readCount: nat)

  /** One call: the answer, and how many readings it takes. */
  function Answered(b: Binding, s: State): (Answer, State)
    decreases |s.backend|
  {
    if s.terminal.Some? then (Closed(s.terminal.value), s)
    else if s.backend == [] then (Closed(StreamEnded), s.(terminal := Some(StreamEnded), readCount := s.readCount + 1))
    else
      var r, rest := s.backend[0], State(None, s.backend[1..], s.readCount + 1);
      if r.Failed? then (BackendError(r.error), rest)
      else if IsOurSms(b, r) then (Sms(r.signal.smsPath), rest)
      else if Ends(b, r).Some? then (Closed(Ends(b, r).value), rest.(terminal := Ends(b, r)))
      else Answered(b, rest)
  }

  class InboundSubscription {
    const binding: Binding
    var backend: seq<Reading>
    var readCount: nat
    var initialSms: seq<string>
    var terminalError: Option<Terminal>

    function Contents(): State
      reads this
    {
      State(terminalError, backend, readCount)
    }

    constructor (owner: string, modemPath: string, backend: seq<Reading>, initialSms: seq<string>)
      ensures binding == Binding(owner, modemPath) && this.initialSms == initialSms
      ensures Contents() == State(None, backend, 0)
    {
      this.binding := Binding(owner, modemPath);
      this.backend, this.readCount := backend, 0;
      this.initialSms, this.terminalError := initialSms, None;
    }

    method TakeInitialSms() returns (taken: seq<string>)
      modifies this`initialSms
      ensures taken == old(initialSms) && initialSms == []
    {
      taken := initialSms;
      initialSms := [];
    }

    method NextSignal() returns (r: Option<Reading>)
      modifies this`backend, this`readCount
      ensures readCount == old(readCount) + 1
      ensures r.None? <==> old(backend) == []
      ensures backend == if r.None? then [] else old(backend)[1..]
      ensures r.Some? ==> r.value == old(backend)[0]
    {
      readCount := readCount + 1;
      if backend == [] { return None; }
      r := Some(backend[0]);
      backend := backend[1..];
    }

    method Next() returns (answer: Answer)
      modifies this`backend, this`readCount, this`terminalError
      ensures (answer, Contents()) == Answered(binding, old(Contents()))
    {
      if terminalError.Some? { return Closed(terminalError.value); }
      while true
        invariant terminalError.None?
        invariant Answered(binding, Contents()) == Answered(binding, old(Contents()))
        decreases |backend|
      {
        var read := NextSignal();
        if read.None? {
          terminalError := Some(StreamEnded);
          return Closed(StreamEnded);
        }
        if read.value.Failed? { return BackendError(read.value.error); }
        match read.value.signal {
          case Added(sender, signalPath, smsPath, isReceived) =>
            if sender == Some(binding.owner) && signalPath == Some(binding.modemPath) && isReceived {
              return Sms(smsPath);
            }
          case NameOwnerChanged(name, oldOwner, newOwner) =>
            if ModemOwnerChanged(name, oldOwner, newOwner) {
              terminalError := Some(OwnerChanged);
              return Closed(OwnerChanged);
            }
          case InterfacesRemoved(remover, removedPath) =>
            if remover == Some(binding.owner) && removedPath == binding.modemPath {
              terminalError := Some(ModemRemoved);
              return Closed(ModemRemoved);
            }
          case Unrelated =>
        }
      }
    }
  }

  // ---------- Repeated calls ----------

  ghost predicate Calls(b: Binding, run: seq<State>, answers: seq<Answer>) {
    && |run| == |answers| + 1
    && forall i :: 0 <= i < |answers| ==> (answers[i], run[i + 1]) == Answered(b, run[i])
  }

  /** The answers still to come; the last one repeats for ever. */
  function Coming(b: Binding, s: State): (r: seq<Answer>)
    ensures r != []
  {
    if s.terminal.Some? then [Closed(s.terminal.value)] else Answers(b, s.backend)
  }

  lemma HeardOfRest(b: Binding, r: Reading, rest: seq<Reading>)
    ensures Heard(b, [r] + rest) == Heard(b, [r]) + Heard(b, rest)
  {
    assert ([r] + rest)[1..] == rest && [r][1..] == [];
  }

  lemma AnswersOfRest(b: Binding, r: Reading, rest: seq<Reading>)
    requires Ends(b, r).None?
    ensures Answers(b, [r] + rest) == Heard(b, [r]) + Answers(b, rest)
  {
    var (stream, i) := ([r] + rest, ClosingPlace(b, rest));
    assert stream[1..] == rest;
    assert ClosingPlace(b, stream) == 1 + i;
    assert stream[..1 + i] == [r] + rest[..i];
    HeardOfRest(b, r, rest[..i]);
  }

  /** A first reading that is passed over leaves the coming answers as they are; one that is
      told is the first of them; one that closes is the only one. */
  lemma FirstReading(b: Binding, s: State, rest: State)
    requires s.terminal.None? && s.backend != [] && rest == State(None, s.backend[1..], s.readCount + 1)
    ensures var r := s.backend[0];
      if Ends(b, r).Some? then Coming(b, s) == [Closed(Ends(b, r).value)]
      else Coming(b, s) == Heard(b, [r]) + Coming(b, rest)
  {
    var r := s.backend[0];
    if Ends(b, r).None? {
      assert s.backend == [r] + rest.backend;
      AnswersOfRest(b, r, rest.backend);
    } else {
      assert ClosingPlace(b, s.backend) == 0;
    }
  }

  lemma HeardOfOne(b: Binding, r: Reading)
    ensures Heard(b, [r]) == (if r.Failed? then [BackendError(r.error)]
                              else if IsOurSms(b, r) then [Sms(r.signal.smsPath)] else [])
  {
    assert [r][1..] == [];
  }

  ghost predicate FirstIsAnswered(b: Binding, s: State, answer: Answer, s': State) {
    && answer == Coming(b, s)[0]
    && Coming(b, s') == (if |Coming(b, s)| == 1 then Coming(b, s) else Coming(b, s)[1..])
    && (|Coming(b, s)| == 1 <==> s'.terminal.Some?)
  }

  /** One call gives the first of the coming answers and leaves the others to come. */
  lemma {:induction false} NextIsComing(b: Binding, s: State)
    ensures FirstIsAnswered(b, s, Answered(b, s).0, Answered(b, s).1)
    decreases |s.backend|
  {
    if s.terminal.None? && s.backend != [] {
      var r, rest := s.backend[0], State(None, s.backend[1..], s.readCount + 1);
      FirstReading(b, s, rest);
      HeardOfOne(b, r);
      if Ends(b, r).None? && !r.Failed? && !IsOurSms(b, r) {
        NextIsComing(b, rest);
        assert Answered(b, s) == Answered(b, rest) && Coming(b, s) == Coming(b, rest);
      }
    }
  }

  /** Call `i` gives the `i`-th of our messages and read errors before the subscription is
      closed, in order; every later call repeats why it was closed, and reads nothing. */
  lemma {:induction false} CallsRefineTheStream(b: Binding, run: seq<State>, answers: seq<Answer>, i: nat)
    requires Calls(b, run, answers) && i < |answers| && run[0].terminal.None?
    ensures var said := Answers(b, run[0].backend);
      && answers[i] == (if i < |said| then said[i] else said[|said| - 1])
      && Coming(b, run[i + 1]) == (if i + 1 < |said| then said[i + 1..] else [said[|said| - 1]])
      && (i >= |said| ==> run[i + 1] == run[i])
      && (i + 1 >= |said| <==> run[i + 1].terminal.Some?)
    decreases i
  {
    if i > 0 { CallsRefineTheStream(b, run, answers, i - 1); }
    assert (answers[i], run[i + 1]) == Answered(b, run[i]);
    NextIsComing(b, run[i]);
  }

  /** A received message of the bound owner's modem. */
  function OurSms(b: Binding, path: string): Reading {
    Signal(Added(Some(b.owner), Some(b.modemPath), path, true))
  }

  /** What is heard, and that nothing else is: exactly our messages and the read errors. */
  lemma {:induction false} HeardExactly(b: Binding, stream: seq<Reading>, path: string, e: ReadError)
    ensures Sms(path) in Heard(b, stream) <==> OurSms(b, path) in stream
    ensures BackendError(e) in Heard(b, stream) <==> Failed(e) in stream
    ensures forall t :: Closed(t) !in Heard(b, stream)
  {
    if stream != [] {
      HeardExactly(b, stream[1..], path, e);
      assert stream == [stream[0]] + stream[1..];
    }
  }

  /** It is heard in the order of the stream. */
  lemma {:induction false} HeardInOrder(b: Binding, first: seq<Reading>, rest: seq<Reading>)
    ensures Heard(b, first + rest) == Heard(b, first) + Heard(b, rest)
  {
    if first == [] {
      assert first + rest == rest;
    } else {
      HeardInOrder(b, first[1..], rest);
      assert (first + rest)[1..] == first[1..] + rest;
    }
  }

  predicate ClosesByOwner(r: Reading) {
    r.Signal? && r.signal.NameOwnerChanged? && r.signal.name == MM_DESTINATION && r.signal.oldOwner != r.signal.newOwner
  }

  predicate ClosesByRemoval(b: Binding, r: Reading) {
    r == Signal(InterfacesRemoved(Some(b.owner), b.modemPath))
  }

  /** Why the subscription closes: at the first reading that says so, else at the end of the stream. */
  lemma ClosedExactly(b: Binding, stream: seq<Reading>)
    ensures var (i, reason) := (ClosingPlace(b, stream), Answers(b, stream)[|Answers(b, stream)| - 1]);
      && (forall j :: 0 <= j < i ==> !ClosesByOwner(stream[j]) && !ClosesByRemoval(b, stream[j]))
      && (i == |stream| ==> reason == Closed(StreamEnded))
      && (i < |stream| ==>
            (ClosesByOwner(stream[i]) && reason == Closed(OwnerChanged))
            || (ClosesByRemoval(b, stream[i]) && reason == Closed(ModemRemoved)))
  {
    forall j | 0 <= j < ClosingPlace(b, stream) ensures !ClosesByOwner(stream[j]) && !ClosesByRemoval(b, stream[j]) {
      assert Ends(b, stream[j]).None?;
    }
  }
}
