/**
 * The connection supervisor of the tun client: dial the server, register every
 * proxy on the new session, run the session, and start over when the session
 * ends gracefully; a failed dial is retried forever, any other failure ends the
 * client.
 *
 * The network collaborators (dial, proxy registration, session run) are
 * replaced by a scripted trace of replies, one reply per call, in call order.
 * The supervisor's observable behaviour is the log of events it produces.
 */
module TuncSupervisor {
  import opened TuncConfig

  /** What a collaborator call returns: nil, the session-closed sentinel, or any other error. */
  datatype Reply = Ok | Closed | Failed(message: string)

  /** Observable actions: collaborator calls, the retry pause and the retry report. */
  datatype Event =
    | Dial(server: string)
    | Sleep
    | ReportRetry(count: int)
    | Register(id: string, token: string, addr: string)
    | RunSession

  /** Why the client stopped. */
  datatype Fault = RegisterFailed(id: string, reply: Reply) | RunFailed(message: string)

  /**
   * Where the supervisor is: about to dial, about to register the proxy at
   * position `next` of the registration order, about to run the session, or
   * stopped for good.
   */
  datatype Phase = Dialing | Registering(next: nat) | Running | Stopped(fault: Fault)

  /** The retry counter `idx`, the phase, and the events so far. */
  datatype State = State(phase: Phase, idx: int, events: seq<Event>)

  /** The supervisor before its first dial. */
  const Initial: State := State(Dialing, 0, [])

  /** `order` lists every proxy id exactly once: an iteration order of the map. */
  predicate Enumerates(order: seq<string>, proxies: map<string, Proxy>) {
    && (forall i, j :: 0 <= i < j < |order| ==> order[i] != order[j])
    && (forall i :: 0 <= i < |order| ==> order[i] in proxies)
    && (forall id :: id in proxies ==> id in order)
  }

  /** The registration call for one proxy. */
  function RegisterEvent(cfg: Settings, id: string): Event
    requires id in cfg.proxies
  {
    Register(id, cfg.proxies[id].token, cfg.proxies[id].addr)
  }

  /** The registration calls for `ids`, in that order. */
  function Registrations(cfg: Settings, ids: seq<string>): seq<Event>
    requires forall k :: 0 <= k < |ids| ==> ids[k] in cfg.proxies
    decreases |ids|
  {
    if ids == [] then []
    else Registrations(cfg, ids[..|ids| - 1]) + [RegisterEvent(cfg, ids[|ids| - 1])]
  }

  /** `t` is a suffix of the log `s`. */
  predicate EndsWith(s: seq<Event>, t: seq<Event>) {
    |t| <= |s| && s[|s| - |t|..] == t
  }

  /**
   * What holds of every state the supervisor reaches: the counter is never
   * negative, a registration position is inside the order, and the counter
   * is 0 whenever a session is about to run.
   */
  predicate Valid(order: seq<string>, st: State) {
    && st.idx >= 0
    && (st.phase.Registering? ==> st.phase.next < |order|)
    && (st.phase.Running? ==> st.idx == 0)
  }

  /**
   * One collaborator call and what the supervisor does with its reply (the
   * body of the `for` loop in `main`, one call at a time). A stopped
   * supervisor makes no further call.
   */
  function Step(cfg: Settings, order: seq<string>, st: State, reply: Reply): (r: State)
    requires Enumerates(order, cfg.proxies) && Valid(order, st)
    ensures Valid(order, r)
  {
    match st.phase
    case Dialing =>
      var dialed := st.events + [Dial(cfg.server)];
      if reply != Ok then State(Dialing, st.idx + 1, dialed + [Sleep, ReportRetry(st.idx + 1)])
      else if |order| == 0 then State(Running, 0, dialed)
      else State(Registering(0), st.idx, dialed)
    case Registering(i) =>
      var id := order[i];
      var registered := st.events + [RegisterEvent(cfg, id)];
      if reply != Ok then State(Stopped(RegisterFailed(id, reply)), st.idx, registered)
      else if i + 1 < |order| then State(Registering(i + 1), st.idx, registered)
      else State(Running, 0, registered)
    case Running =>
      var ran := st.events + [RunSession];
      if reply.Failed? then State(Stopped(RunFailed(reply.message)), st.idx, ran)
      else State(Dialing, st.idx, ran)
    case Stopped(_) => st
  }

  /** The supervisor after answering the calls in `replies`, in order. */
  function Run(cfg: Settings, order: seq<string>, st: State, replies: seq<Reply>): (r: State)
    requires Enumerates(order, cfg.proxies) && Valid(order, st)
    ensures Valid(order, r)
    decreases |replies|
  {
    if replies == [] then st
    else Step(cfg, order, Run(cfg, order, st, replies[..|replies| - 1]), replies[|replies| - 1])
  }

  /** Answering one more reply is one more `Step`. */
  lemma RunNext(cfg: Settings, order: seq<string>, st: State, replies: seq<Reply>, pos: nat)
    requires Enumerates(order, cfg.proxies) && Valid(order, st) && pos < |replies|
    ensures Run(cfg, order, st, replies[..pos + 1]) ==
              Step(cfg, order, Run(cfg, order, st, replies[..pos]), replies[pos])
  {
    assert replies[..pos + 1][..pos] == replies[..pos];
  }

  /** Appending the same event to both sides keeps a suffix a suffix. */
  lemma EndsWithSnoc(s: seq<Event>, t: seq<Event>, e: Event)
    requires EndsWith(s, t)
    ensures EndsWith(s + [e], t + [e])
  {
    assert (s + [e])[|s + [e]| - |t + [e]|..] == s[|s| - |t|..] + [e];
  }

  /** One more proxy of the order adds exactly its registration at the end. */
  lemma RegistrationsNext(cfg: Settings, order: seq<string>, i: nat)
    requires Enumerates(order, cfg.proxies) && i < |order|
    ensures Registrations(cfg, order[..i + 1]) == Registrations(cfg, order[..i]) + [RegisterEvent(cfg, order[i])]
  {
    assert order[..i + 1][..i] == order[..i];
  }

  // ---------------------------------------------------------------------------
  // Runs over several replies

  /** Answering `a` and then `b` is answering `a + b`. */
  lemma {:induction false} RunAppend(cfg: Settings, order: seq<string>, st: State, a: seq<Reply>, b: seq<Reply>)
    requires Enumerates(order, cfg.proxies) && Valid(order, st)
    ensures Run(cfg, order, st, a + b) == Run(cfg, order, Run(cfg, order, st, a), b)
    decreases |b|
  {
    if b == [] {
      assert a + b == a;
    } else {
      assert (a + b)[..|a + b| - 1] == a + b[..|b| - 1];
      RunAppend(cfg, order, st, a, b[..|b| - 1]);
    }
  }

  /**
   * A stopped supervisor stays stopped: whatever replies follow, it makes no
   * further call (no later registration, no further dial) and its state and
   * log do not change.
   */
  lemma {:induction false} StoppedIsFinal(cfg: Settings, order: seq<string>, st: State, replies: seq<Reply>)
    requires Enumerates(order, cfg.proxies) && Valid(order, st) && st.phase.Stopped?
    ensures Run(cfg, order, st, replies) == st
    decreases |replies|
  {
    if replies != [] {
      StoppedIsFinal(cfg, order, st, replies[..|replies| - 1]);
    }
  }

  /** Once a prefix of the replies stops the supervisor, the rest change nothing. */
  lemma StoppedPrefix(cfg: Settings, order: seq<string>, replies: seq<Reply>, n: nat)
    requires Enumerates(order, cfg.proxies) && n <= |replies|
    requires Run(cfg, order, Initial, replies[..n]).phase.Stopped?
    ensures Run(cfg, order, Initial, replies) == Run(cfg, order, Initial, replies[..n])
  {
    assert replies == replies[..n] + replies[n..];
    RunAppend(cfg, order, Initial, replies[..n], replies[n..]);
    StoppedIsFinal(cfg, order, Run(cfg, order, Initial, replies[..n]), replies[n..]);
  }

  /**
   * `main`'s supervision loop: dial until a dial succeeds, register every
   * proxy in `order`, reset the counter, run the session, and loop on nil or
   * session-closed. The loop in the client never ends on its own; here it
   * ends when the scripted replies run out, and the returned state says
   * where it stood.
   */
  method Supervise(cfg: Settings, order: seq<string>, replies: seq<Reply>) returns (final: State)
    requires Enumerates(order, cfg.proxies)
    ensures final == Run(cfg, order, Initial, replies)
  {
    var idx := 0;
    var events: seq<Event> := [];
    var pos := 0;
    while pos < |replies|
      invariant 0 <= pos <= |replies|
      invariant Run(cfg, order, Initial, replies[..pos]) == State(Dialing, idx, events)
      decreases |replies| - pos
    {
      RunNext(cfg, order, Initial, replies, pos);
      var reply := replies[pos];
      pos := pos + 1;
      events := events + [Dial(cfg.server)];
      if reply != Ok {
        idx := idx + 1;
        events := events + [Sleep, ReportRetry(idx)];
        continue;
      }

      ghost var dialed := pos;
      var j := 0;
      while j < |order|
        invariant 0 <= j <= |order| && dialed <= pos <= |replies|
        invariant j < |order| ==>
                    Run(cfg, order, Initial, replies[..pos]) == State(Registering(j), idx, events)
        invariant j == |order| ==>
                    Run(cfg, order, Initial, replies[..pos]) == State(Running, 0, events)
      {
        if pos == |replies| {
          assert replies[..pos] == replies;
          return State(Registering(j), idx, events);
        }
        RunNext(cfg, order, Initial, replies, pos);
        var id := order[j];
        var proxy := cfg.proxies[id];
        reply := replies[pos];
        pos := pos + 1;
        events := events + [Register(id, proxy.token, proxy.addr)];
        if reply != Ok {
          StoppedPrefix(cfg, order, replies, pos);
          return State(Stopped(RegisterFailed(id, reply)), idx, events);
        }
        j := j + 1;
      }

      idx := 0;
      if pos == |replies| {
        assert replies[..pos] == replies;
        return State(Running, idx, events);
      }
      RunNext(cfg, order, Initial, replies, pos);
      reply := replies[pos];
      pos := pos + 1;
      events := events + [RunSession];
      if reply.Failed? {
        StoppedPrefix(cfg, order, replies, pos);
        return State(Stopped(RunFailed(reply.message)), idx, events);
      }
    }
    assert replies[..pos] == replies;
    final := State(Dialing, idx, events);
  }

  /** How the client ends: the configuration did not load, or the supervisor's final state. */
  datatype Exit = ConfigError(error: string) | Supervised(final: State)

  /**
   * `main`: load the configuration; a load error ends the client before any
   * dial; otherwise supervise with the loaded configuration.
   */
  method Launch(file: ConfigFile, ov: Overrides, order: seq<string>, replies: seq<Reply>)
    returns (exit: Exit)
    requires Load(file, ov).Success? ==> Enumerates(order, Load(file, ov).value.proxies)
    ensures Load(file, ov).Failure? ==> exit == ConfigError(Load(file, ov).error)
    ensures Load(file, ov).Success? ==>
              exit == Supervised(Run(Load(file, ov).value, order, Initial, replies))
  {
    var cfg, err := LoadConfig(file, ov);
    if err.Some? {
      return ConfigError(err.value);
    }
    var final := Supervise(cfg.Value(), order, replies);
    exit := Supervised(final);
  }

  // ---------------------------------------------------------------------------
  // Properties of one supervision cycle

  /** `n` replies of nil. */
  function Oks(n: nat): seq<Reply> {
    seq(n, _ => Ok)
  }

  /** The log of `n` failed dials, with the counter going from `k` up. */
  function Retries(server: string, k: int, n: nat): seq<Event>
    decreases n
  {
    if n == 0 then [] else Retries(server, k, n - 1) + [Dial(server), Sleep, ReportRetry(k + n)]
  }

  /**
   * Failed dials are retried without limit: after `n` failed dials in a row
   * the supervisor is still dialing, its counter has grown by exactly `n`, and
   * each failure logged a dial, a one-second pause and the new count.
   */
  lemma {:induction false} DialFailuresRetry(cfg: Settings, order: seq<string>, k: nat, log: seq<Event>, replies: seq<Reply>)
    requires Enumerates(order, cfg.proxies)
    requires forall i :: 0 <= i < |replies| ==> replies[i] != Ok
    ensures Run(cfg, order, State(Dialing, k, log), replies) ==
              State(Dialing, k + |replies|, log + Retries(cfg.server, k, |replies|))
    decreases |replies|
  {
    if replies != [] {
      var init := replies[..|replies| - 1];
      DialFailuresRetry(cfg, order, k, log, init);
      assert log + Retries(cfg.server, k, |init|) + [Dial(cfg.server)] + [Sleep, ReportRetry(k + |replies|)] ==
             log + Retries(cfg.server, k, |replies|);
    }
  }

  /**
   * After a successful dial, the proxies are registered one after another in
   * the given order, the first `j` of them after `j` nil replies; the counter
   * is reset to 0 only once every proxy is registered.
   */
  lemma {:induction false} RegistersInOrder(cfg: Settings, order: seq<string>, k: nat, log: seq<Event>, j: nat)
    requires Enumerates(order, cfg.proxies) && j <= |order|
    ensures var expected := log + [Dial(cfg.server)] + Registrations(cfg, order[..j]);
            Run(cfg, order, State(Dialing, k, log), [Ok] + Oks(j)) ==
              if j < |order| then State(Registering(j), k, expected) else State(Running, 0, expected)
  {
    var st := State(Dialing, k, log);
    var replies := [Ok] + Oks(j);
    if j == 0 {
      assert replies[..0] == [];
      DialSucceeds(cfg, order, k, log);
    } else {
      assert replies[..|replies| - 1] == [Ok] + Oks(j - 1);
      RegistersInOrder(cfg, order, k, log, j - 1);
      RegisterSucceeds(cfg, order, k, log + [Dial(cfg.server)], j - 1);
    }
  }

  /** A successful dial starts the registration pass, or the run when there are no proxies. */
  lemma DialSucceeds(cfg: Settings, order: seq<string>, k: nat, log: seq<Event>)
    requires Enumerates(order, cfg.proxies)
    ensures var expected := log + [Dial(cfg.server)] + Registrations(cfg, order[..0]);
            Step(cfg, order, State(Dialing, k, log), Ok) ==
              if 0 < |order| then State(Registering(0), k, expected) else State(Running, 0, expected)
  {
    assert order[..0] == [];
  }

  /** A successful registration moves to the next proxy, or to the run after the last one. */
  lemma RegisterSucceeds(cfg: Settings, order: seq<string>, k: nat, log: seq<Event>, i: nat)
    requires Enumerates(order, cfg.proxies) && i < |order|
    ensures var expected := log + Registrations(cfg, order[..i + 1]);
            Step(cfg, order, State(Registering(i), k, log + Registrations(cfg, order[..i])), Ok) ==
              if i + 1 < |order| then State(Registering(i + 1), k, expected) else State(Running, 0, expected)
  {
    RegistrationsNext(cfg, order, i);
  }

  /**
   * A successful dial followed by successful registrations of every proxy
   * leaves the supervisor about to run the session with the counter at 0.
   */
  lemma ConnectResetsCounter(cfg: Settings, order: seq<string>, k: nat, log: seq<Event>)
    requires Enumerates(order, cfg.proxies)
    ensures Run(cfg, order, State(Dialing, k, log), [Ok] + Oks(|order|)) ==
              State(Running, 0, log + [Dial(cfg.server)] + Registrations(cfg, order))
  {
    RegistersInOrder(cfg, order, k, log, |order|);
    assert order[..|order|] == order;
  }

  /**
   * The registrations of one full pass name every configured proxy exactly
   * once, each with its own token and local address.
   */
  lemma {:induction false} RegistrationsOncePerProxy(cfg: Settings, ids: seq<string>)
    requires forall k :: 0 <= k < |ids| ==> ids[k] in cfg.proxies
    requires forall i, j :: 0 <= i < j < |ids| ==> ids[i] != ids[j]
    ensures |Registrations(cfg, ids)| == |ids|
    ensures forall i :: 0 <= i < |ids| ==> Registrations(cfg, ids)[i] == RegisterEvent(cfg, ids[i])
    ensures forall i, j :: 0 <= i < j < |ids| ==> Registrations(cfg, ids)[i] != Registrations(cfg, ids)[j]
    decreases |ids|
  {
    if ids != [] {
      RegistrationsOncePerProxy(cfg, ids[..|ids| - 1]);
    }
  }

  /** Every proxy of the configuration is registered in a full pass. */
  lemma FullPassCoversProxies(cfg: Settings, order: seq<string>, id: string)
    requires Enumerates(order, cfg.proxies) && id in cfg.proxies
    ensures RegisterEvent(cfg, id) in Registrations(cfg, order)
  {
    RegistrationsOncePerProxy(cfg, order);
    var i :| 0 <= i < |order| && order[i] == id;
    assert Registrations(cfg, order)[i] == RegisterEvent(cfg, id);
  }

  /**
   * The first failed registration is fatal: the proxies after it are not
   * attempted, and whatever replies follow, no further dial is made.
   */
  lemma RegistrationFailureIsFatal(cfg: Settings, order: seq<string>, k: nat, log: seq<Event>,
                                   j: nat, failure: Reply, rest: seq<Reply>)
    requires Enumerates(order, cfg.proxies) && j < |order| && failure != Ok
    ensures Run(cfg, order, State(Dialing, k, log), [Ok] + Oks(j) + [failure] + rest) ==
              State(Stopped(RegisterFailed(order[j], failure)), k,
                    log + [Dial(cfg.server)] + Registrations(cfg, order[..j + 1]))
  {
    var st := State(Dialing, k, log);
    var before := [Ok] + Oks(j);
    RegistersInOrder(cfg, order, k, log, j);
    RunAppend(cfg, order, st, before, [failure]);
    assert Run(cfg, order, Run(cfg, order, st, before), [failure]) ==
           Step(cfg, order, Run(cfg, order, st, before), failure) by {
      assert [failure][..0] == [];
    }
    RegistrationsNext(cfg, order, j);
    var stopped := Run(cfg, order, st, before + [failure]);
    RunAppend(cfg, order, st, before + [failure], rest);
    StoppedIsFinal(cfg, order, stopped, rest);
  }

  /**
   * A session that ends with nil or session-closed is followed by a new dial
   * and, on success, a full re-registration of every proxy; the counter is
   * back at 0 when the new session runs.
   */
  lemma SessionEndReconnects(cfg: Settings, order: seq<string>, log: seq<Event>, end: Reply)
    requires Enumerates(order, cfg.proxies) && (end == Ok || end == Closed)
    ensures Run(cfg, order, State(Running, 0, log), [end] + ([Ok] + Oks(|order|))) ==
              State(Running, 0, log + [RunSession] + [Dial(cfg.server)] + Registrations(cfg, order))
  {
    var st := State(Running, 0, log);
    assert Run(cfg, order, st, [end]) == State(Dialing, 0, log + [RunSession]) by {
      assert [end][..0] == [];
    }
    RunAppend(cfg, order, st, [end], [Ok] + Oks(|order|));
    ConnectResetsCounter(cfg, order, 0, log + [RunSession]);
  }

  /** Any other end of a session is fatal, and no further call follows. */
  lemma RunErrorIsFatal(cfg: Settings, order: seq<string>, log: seq<Event>, message: string, rest: seq<Reply>)
    requires Enumerates(order, cfg.proxies)
    ensures Run(cfg, order, State(Running, 0, log), [Failed(message)] + rest) ==
              State(Stopped(RunFailed(message)), 0, log + [RunSession])
  {
    var st := State(Running, 0, log);
    assert Run(cfg, order, st, [Failed(message)]) == State(Stopped(RunFailed(message)), 0, log + [RunSession]) by {
      assert [Failed(message)][..0] == [];
    }
    RunAppend(cfg, order, st, [Failed(message)], rest);
    StoppedIsFinal(cfg, order, Run(cfg, order, st, [Failed(message)]), rest);
  }

  /**
   * The shape of the log within the current cycle: while registering, it ends
   * with the latest dial followed by the registrations of the proxies before
   * `next`, in order; while running, with the latest dial followed by one
   * registration of every proxy.
   */
  predicate CycleLog(cfg: Settings, order: seq<string>, st: State)
    requires Enumerates(order, cfg.proxies)
  {
    match st.phase
    case Registering(i) =>
      i < |order| && EndsWith(st.events, [Dial(cfg.server)] + Registrations(cfg, order[..i]))
    case Running => EndsWith(st.events, [Dial(cfg.server)] + Registrations(cfg, order))
    case _ => true
  }

  /** One step keeps the shape of the current cycle's log. */
  lemma StepKeepsCycleLog(cfg: Settings, order: seq<string>, st: State, reply: Reply)
    requires Enumerates(order, cfg.proxies) && Valid(order, st) && CycleLog(cfg, order, st)
    ensures CycleLog(cfg, order, Step(cfg, order, st, reply))
  {
    match st.phase
    case Dialing =>
      assert order[..0] == [];
      if |order| == 0 {
        assert order[..0] == order;
      }
    case Registering(i) =>
      var e := RegisterEvent(cfg, order[i]);
      RegistrationsNext(cfg, order, i);
      EndsWithSnoc(st.events, [Dial(cfg.server)] + Registrations(cfg, order[..i]), e);
      assert [Dial(cfg.server)] + Registrations(cfg, order[..i]) + [e] ==
             [Dial(cfg.server)] + Registrations(cfg, order[..i + 1]);
      if i + 1 == |order| {
        assert order[..i + 1] == order;
      }
    case Running =>
    case Stopped(_) =>
  }

  /**
   * In every state the supervisor reaches, the current cycle's registrations
   * follow its latest dial, one proxy at a time in order, none twice.
   */
  lemma {:induction false} ReachedCycleLog(cfg: Settings, order: seq<string>, replies: seq<Reply>)
    requires Enumerates(order, cfg.proxies)
    ensures CycleLog(cfg, order, Run(cfg, order, Initial, replies))
    decreases |replies|
  {
    if replies != [] {
      var init := replies[..|replies| - 1];
      ReachedCycleLog(cfg, order, init);
      StepKeepsCycleLog(cfg, order, Run(cfg, order, Initial, init), replies[|replies| - 1]);
    }
  }
}
