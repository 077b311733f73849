/** The connection's state machine: six steps, a TLS socket and a websocket on top of it. */
module Modem {
  import Arith
  import opened Options

  datatype Step = Init | Sim | Pdn | Tls | Register | Websocket

  const ENOTCONN: int := -128
  const REG_NAME_MIN_LEN: nat := 3
  const REG_NAME_MAX_LEN: nat := 64
  const REG_CODE_REJECTED: string := "0"

  predicate Pending(code: string) {
    code != "" && code != REG_CODE_REJECTED
  }

  // ---- what a pass of the loop meets ----

  /** One look at the link while idling: whether it is up, and whether there is a reason to connect. */
  datatype Poll = Poll(up: bool, wanted: bool)

  predicate PollEnds(p: Poll) {
    !p.up || p.wanted
  }

  /** One round over a live websocket: a new code, the link, whether a ping is due and is sent, whether there is data
      and it is sent, and what receiving gives (below 0 and not "again": lost). */
  datatype Round = Round(pending: bool, up: bool, pingDue: bool, pingSent: bool, tx: bool, txSent: bool, recv: int)

  const EAGAIN: int := -11

  predicate RoundEnds(r: Round) {
    r.pending || !r.up || (r.pingDue && !r.pingSent) || (r.tx && !r.txSent) || (r.recv < 0 && r.recv != EAGAIN)
  }

  /** What the calls of a pass return. Only those of its own step matter: `err` for the first three; the socket and what
      comes of connecting it, and whether a code is pending then; whether it still is, the name stored with it, and what
      comes of the request; the websocket and its rounds. */
  datatype Seen = Seen(
    err: int, polls: seq<Poll>,
    socket: int, connectErr: int, pendingThen: bool,
    pending: bool, name: string, imeiErr: int, httpErr: int,
    ws: int, rounds: seq<Round>)

  /** The loop's variables, the sockets that are open, the websockets and the socket each is on, and what registering
      left of the code. */
  datatype State = State(
    step: Step, tlsFd: int, wsSock: int, sockets: set<int>, websockets: map<int, int>, code: Option<string>)

  const INITIAL: State := State(Init, -1, -1, {}, map[], None)

  /** Calls that return do so for a reason, and a new socket isn't one that is open. */
  predicate SeenOk(st: State, seen: Seen) {
    && seen.polls != [] && PollEnds(seen.polls[|seen.polls| - 1])
    && seen.rounds != [] && RoundEnds(seen.rounds[|seen.rounds| - 1])
    && (seen.socket >= 0 ==> seen.socket !in st.sockets)
    && (seen.ws >= 0 ==> seen.ws !in st.websockets)
  }

  // ---- one pass ----

  function FirstEnd(polls: seq<Poll>): Poll
    requires polls != []
  {
    if PollEnds(polls[0]) || |polls| == 1 then polls[0] else FirstEnd(polls[1..])
  }

  function FirstRoundEnd(rounds: seq<Round>): Round
    requires rounds != []
  {
    if RoundEnds(rounds[0]) || |rounds| == 1 then rounds[0] else FirstRoundEnd(rounds[1..])
  }

  /** Where the connection is taken up again when its websocket is given up: at the link if that is what was lost. */
  function Resume(r: Round): Step {
    if !r.pending && !r.up then Pdn else Tls
  }

  /** The round that decides is the first one that ends it. */
  lemma {:induction false} FirstRoundDecides(rounds: seq<Round>, k: nat)
    requires k < |rounds| && RoundEnds(rounds[k]) && forall i | 0 <= i < k :: !RoundEnds(rounds[i])
    ensures FirstRoundEnd(rounds) == rounds[k]
  {
    if k == 0 {
    } else {
      FirstRoundDecides(rounds[1..], k - 1);
    }
  }

  /** The stored name as it fits the buffer it is read into. */
  function NameRead(name: string): string {
    name[..Arith.Min(|name|, REG_NAME_MAX_LEN)]
  }

  /** A name of up to 64 characters is read whole, and a longer one cut to them: so none is ever too long. */
  lemma NameReadFits(name: string)
    ensures |name| <= 64 ==> NameRead(name) == name
    ensures |name| > 64 ==> |NameRead(name)| == 64 && NameRead(name) < name
    ensures NameOk(name) <==> |name| >= REG_NAME_MIN_LEN
  {
  }

  predicate NameOk(name: string) {
    REG_NAME_MIN_LEN <= |NameRead(name)| <= REG_NAME_MAX_LEN
  }

  /** An attempt to register is given up before its socket is looked at. */
  predicate GivesUp(seen: Seen) {
    !seen.pending || !NameOk(seen.name)
  }

  function Registered(st: State, seen: Seen): State {
    if !seen.pending then st.(code := None)
    else if !NameOk(seen.name) then st.(code := Some(""))
    else if st.tlsFd < 0 then st.(code := None)
    else
      st.(sockets := st.sockets - {st.tlsFd}, tlsFd := -1,
          code := Some(if seen.imeiErr == 0 && seen.httpErr == 0 then "" else REG_CODE_REJECTED))
  }

  function Next(st: State, seen: Seen): State {
    match st.step
    case Init => if seen.err != 0 then st else st.(step := Sim)
    case Sim => if seen.err != 0 then st else st.(step := Pdn)
    case Pdn =>
      if seen.err != 0 || seen.polls == [] then st
      else st.(step := if FirstEnd(seen.polls).up then Tls else Pdn)
    case Tls =>
      if seen.socket < 0 || seen.connectErr != 0 then st
      else st.(step := if seen.pendingThen then Register else Websocket,
               tlsFd := seen.socket, sockets := st.sockets + {seen.socket})
    case Register => Registered(st, seen).(step := Pdn)
    case Websocket =>
      if st.tlsFd < 0 then st.(step := Tls)
      else
        var closed := st.(tlsFd := -1, sockets := st.sockets - {st.tlsFd});
        if seen.ws < 0 || seen.rounds == [] then closed.(step := Tls)
        else closed.(step := Resume(FirstRoundEnd(seen.rounds)))
  }

  // ---- the steps ----

  /** A round over the websocket goes on exactly if there is no new code, the link is up, a ping that was due and data
      that was there were sent, and receiving didn't fail: nothing to receive is no failure. */
  lemma RoundGoesOn(r: Round)
    ensures !RoundEnds(r) <==>
            !r.pending && r.up && (r.pingDue ==> r.pingSent) && (r.tx ==> r.txSent) && (r.recv >= 0 || r.recv == EAGAIN)
  {
  }

  /** The connection is taken up again at the link exactly if losing that was what ended the websocket: at the first
      round that ends it the link is down, and no code has come. */
  lemma ResumesAtLink(rounds: seq<Round>, k: nat)
    requires k < |rounds| && RoundEnds(rounds[k]) && forall i | 0 <= i < k :: !RoundEnds(rounds[i])
    ensures Resume(FirstRoundEnd(rounds)) in {Pdn, Tls}
    ensures Resume(FirstRoundEnd(rounds)) == Pdn <==> !rounds[k].up && !rounds[k].pending
  {
    FirstRoundDecides(rounds, k);
  }

  /** Which call of a step failed. */
  predicate Fails(st: State, seen: Seen) {
    match st.step
    case Init => seen.err != 0
    case Sim => seen.err != 0
    case Pdn => seen.err != 0
    case Tls => seen.socket < 0 || seen.connectErr != 0
    case Register => false
    case Websocket => seen.ws < 0
  }

  /** A step that fails is tried again as it was - but for the websocket's, which leaves no socket and starts over at
      TLS. */
  lemma FailedIsRetried(st: State, seen: Seen)
    requires Sane(st) && SeenOk(st, seen) && Fails(st, seen)
    ensures st.step != Websocket ==> Next(st, seen) == st
    ensures st.step == Websocket ==>
              Next(st, seen) == st.(step := Tls, tlsFd := -1, sockets := st.sockets - {st.tlsFd})
  {
  }

  /** One that doesn't goes on: over the SIM to the link, from there to TLS while the link is up, then to registering
      exactly if a code is pending; from registering back to idling on the link. */
  lemma StepsInTurn(st: State, seen: Seen)
    requires Sane(st) && SeenOk(st, seen) && !Fails(st, seen)
    ensures st.step == Init ==> Next(st, seen) == st.(step := Sim)
    ensures st.step == Sim ==> Next(st, seen) == st.(step := Pdn)
    ensures st.step == Pdn ==> Next(st, seen) in {st.(step := Tls), st}
    ensures st.step == Tls ==>
              Next(st, seen) == st.(step := if seen.pendingThen then Register else Websocket,
                                    tlsFd := seen.socket, sockets := st.sockets + {seen.socket})
    ensures st.step == Register ==> Next(st, seen).step == Pdn && (!seen.pending ==> Next(st, seen).code == None)
    ensures st.step == Websocket ==>
              var after := Next(st, seen);
              after == st.(step := after.step, tlsFd := -1, sockets := st.sockets - {st.tlsFd})
  {
  }

  /** Idling ends at the first look that finds the link down or a reason to connect, and goes on to TLS exactly if the
      link is up then. */
  lemma {:induction false} IdlingEnds(polls: seq<Poll>, k: nat)
    requires k < |polls| && forall i | 0 <= i < k :: polls[i].up && !polls[i].wanted
    requires !polls[k].up || polls[k].wanted
    ensures FirstEnd(polls) == polls[k]
  {
    if k > 0 {
      IdlingEnds(polls[1..], k - 1);
    }
  }

  /** So the link's step goes on to TLS exactly if the link is up then. */
  lemma IdlesUntilWanted(st: State, seen: Seen, k: nat)
    requires st.step == Pdn && SeenOk(st, seen) && seen.err == 0 && k < |seen.polls|
    requires forall i | 0 <= i < k :: seen.polls[i].up && !seen.polls[i].wanted
    requires !seen.polls[k].up || seen.polls[k].wanted
    ensures Next(st, seen) == st.(step := if seen.polls[k].up then Tls else Pdn)
  {
    IdlingEnds(seen.polls, k);
  }

  // ---- what every run keeps ----

  /** Between passes the TLS socket is open exactly while a step needs it, and nothing else is open. */
  predicate Owned(st: State) {
    && (st.tlsFd >= 0 <==> st.step in {Register, Websocket})
    && st.sockets == (if st.tlsFd >= 0 then {st.tlsFd} else {})
    && st.wsSock == -1 && st.websockets == map[]
  }

  /** A pass keeps that exactly if it isn't one that gives registering up. */
  lemma PassKeepsOwned(st: State, seen: Seen)
    requires Owned(st) && SeenOk(st, seen)
    ensures Owned(Next(st, seen)) <==> !(st.step == Register && GivesUp(seen))
  {
  }

  /** Giving up means the code is gone, or the stored name is shorter than three characters. */
  lemma GivingUp(seen: Seen)
    ensures GivesUp(seen) <==> !seen.pending || |seen.name| < REG_NAME_MIN_LEN
  {
  }

  predicate Run(seen: seq<Seen>) {
    seen == [] || (Run(seen[..|seen| - 1]) && SeenOk(Reached(seen[..|seen| - 1]), seen[|seen| - 1]))
  }

  function Reached(seen: seq<Seen>): State {
    if seen == [] then INITIAL else Next(Reached(seen[..|seen| - 1]), seen[|seen| - 1])
  }

  /** How many passes of a run give registering up. */
  function GaveUp(seen: seq<Seen>): nat {
    if seen == [] then 0
    else
      var n := |seen| - 1;
      GaveUp(seen[..n]) + if Reached(seen[..n]).step == Register && GivesUp(seen[n]) then 1 else 0
  }

  /** No pass of the run gives registering up: a code that is pending when the socket connects still is in the next
      pass, with a name of at least three characters. */
  predicate NeverGivesUp(seen: seq<Seen>) {
    forall i | 0 <= i < |seen| :: Reached(seen[..i]).step == Register ==> !GivesUp(seen[i])
  }

  lemma {:induction false} NeverIsNone(seen: seq<Seen>)
    ensures NeverGivesUp(seen) <==> GaveUp(seen) == 0
  {
    hide Reached, GivesUp;
    if seen == [] {
    } else {
      var n := |seen| - 1;
      var before := seen[..n];
      NeverIsNone(before);
      assert forall i | 0 <= i < n :: before[..i] == seen[..i] && before[i] == seen[i];
      if NeverGivesUp(before) && (Reached(before).step == Register ==> !GivesUp(seen[n])) {
        forall i | 0 <= i < |seen|
          ensures Reached(seen[..i]).step == Register ==> !GivesUp(seen[i])
        {
          if i < n {
            assert Reached(before[..i]).step == Register ==> !GivesUp(before[i]);
          }
        }
      }
    }
  }

  /** What any run keeps: the socket the loop knows of is open, and there is one when a step needs it. */
  predicate Sane(st: State) {
    && (st.tlsFd >= 0 ==> st.tlsFd in st.sockets) && (st.step in {Register, Websocket} ==> st.tlsFd >= 0)
    && st.wsSock == -1 && st.websockets == map[]
  }

  /** The one socket a step needs. */
  function InUse(st: State): nat {
    if st.step in {Register, Websocket} then 1 else 0
  }

  lemma PassKeepsSane(st: State, seen: Seen)
    requires Sane(st) && SeenOk(st, seen)
    ensures Sane(Next(st, seen))
  {
  }

  /** Over every run, whatever fails in it: the sockets that are open are the one in use and one for every attempt that
      was given up. */
  lemma {:induction false} SocketsCounted(seen: seq<Seen>)
    requires Run(seen)
    ensures var st := Reached(seen);
            Sane(st) && |st.sockets| == GaveUp(seen) + InUse(st)
  {
    if seen == [] {
    } else {
      var n := |seen| - 1;
      SocketsCounted(seen[..n]);
      PassKeepsSane(Reached(seen[..n]), seen[n]);
      PassCountsSockets(Reached(seen[..n]), seen[n]);
    }
  }

  lemma PassCountsSockets(st: State, seen: Seen)
    requires Sane(st) && SeenOk(st, seen)
    ensures |Next(st, seen).sockets| - InUse(Next(st, seen))
         == |st.sockets| - InUse(st) + if st.step == Register && GivesUp(seen) then 1 else 0
  {
  }

  /** At most one TLS socket is open, none is lost, and it is open exactly while registering or over the websocket: so
      every run leaves it, exactly if it never gives registering up. */
  lemma OwnedExactlyIf(seen: seq<Seen>)
    requires Run(seen)
    ensures Owned(Reached(seen)) <==> NeverGivesUp(seen)
  {
    NeverIsNone(seen);
    SocketsCounted(seen);
    if GaveUp(seen) == 0 {
      NeverLost(seen);
    }
  }

  lemma {:induction false} NeverLost(seen: seq<Seen>)
    requires Run(seen) && GaveUp(seen) == 0
    ensures Owned(Reached(seen))
  {
    if seen == [] {
    } else {
      var n := |seen| - 1;
      NeverLost(seen[..n]);
      PassKeepsOwned(Reached(seen[..n]), seen[n]);
    }
  }

  /** A code that is pending when the socket connects stays so until the attempt: nothing but the attempt takes one
      away. */
  predicate CodeStays(seen: seq<Seen>) {
    forall i | 0 <= i < |seen| :: Reached(seen[..i]).step == Register ==> seen[i].pending
  }

  /** Then a run loses a socket exactly if some attempt finds a name shorter than three characters stored. */
  lemma OwnedExactlyIfNamed(seen: seq<Seen>)
    requires Run(seen) && CodeStays(seen)
    ensures Owned(Reached(seen)) <==>
            forall i | 0 <= i < |seen| :: Reached(seen[..i]).step == Register ==> |seen[i].name| >= REG_NAME_MIN_LEN
  {
    OwnedExactlyIf(seen);
    hide Run, Reached, Owned;
    forall i | 0 <= i < |seen|
      ensures GivesUp(seen[i]) <==> !seen[i].pending || |seen[i].name| < REG_NAME_MIN_LEN
    {
      GivingUp(seen[i]);
    }
  }

  /** From the start to the first attempt to register: every call succeeds. */
  lemma FirstAttempt(a: Seen) returns (run: seq<Seen>)
    requires SeenOk(INITIAL, a) && a.err == 0 && a.polls[0] == Poll(true, true)
    requires a.socket >= 0 && a.connectErr == 0 && a.pendingThen
    ensures Run(run) && Reached(run) == State(Register, a.socket, -1, {a.socket}, map[], None)
    ensures forall i | 0 <= i < |run| :: run[i] == a
  {
    run := [];
    assert Run(run) && Reached(run) == INITIAL;
    hide Run, Reached;
    RunsOn(run, a);
    run := run + [a];
    RunsOn(run, a);
    run := run + [a];
    RunsOn(run, a);
    run := run + [a];
    RunsOn(run, a);
    run := run + [a];
  }

  /** An attempt that finds its name too short, and the next one after it. */
  lemma SecondAttempt(run: seq<Seen>, fd: int, b: Seen, c: Seen)
    requires Run(run) && Reached(run) == State(Register, fd, -1, {fd}, map[], None) && fd >= 0
    requires SeenOk(Reached(run), b) && b.pending && |b.name| < REG_NAME_MIN_LEN
    requires SeenOk(Reached(run), c) && c.err == 0 && c.polls[0] == Poll(true, true)
    requires c.socket >= 0 && c.connectErr == 0 && c.pendingThen
    ensures Run(run + [b] + [c] + [c])
    ensures Reached(run + [b] + [c] + [c]) == State(Register, c.socket, -1, {fd, c.socket}, map[], Some(""))
  {
    hide Run, Reached;
    RunsOn(run, b);
    RunsOn(run + [b], c);
    RunsOn(run + [b] + [c], c);
  }

  /** And that does happen. A device that was never registered stores a code and loses power before the name is stored.
      With a code pending in every pass, its first attempt drops the code and leaves socket 1 open; the next
      registration connects through socket 2. */
  lemma Leak()
    ensures exists seen: seq<Seen> ::
              && Run(seen) && (forall i | 0 <= i < |seen| :: seen[i].pendingThen && seen[i].pending)
              && Reached(seen).step == Register && Reached(seen).tlsFd == 2 && Reached(seen).sockets == {1, 2}
  {
    hide Run, Reached;
    var up, lost := Poll(true, true), Round(false, false, false, false, false, false, 0);
    var a := Seen(0, [up], 1, 0, true, true, "", 0, 0, 1, [lost]);
    var run := FirstAttempt(a);
    var b, c := a.(socket := 3), a.(name := "name", socket := 2);
    SecondAttempt(run, 1, b, c);
  }

  lemma RunsOn(seen: seq<Seen>, next: Seen)
    requires Run(seen) && SeenOk(Reached(seen), next)
    ensures Run(seen + [next]) && Reached(seen + [next]) == Next(Reached(seen), next)
  {
    assert (seen + [next])[..|seen|] == seen;
  }

  /** An attempt that isn't given up for want of a code uses the code up, whatever comes of it. */
  lemma CodeUsedUp(st: State, seen: Seen)
    requires Sane(st) && st.step == Register && seen.pending
    ensures var code := Next(st, seen).code;
            code.Some? && !Pending(code.value)
            && (code.value == REG_CODE_REJECTED <==> NameOk(seen.name) && !(seen.imeiErr == 0 && seen.httpErr == 0))
  {
  }

  // ---- the thread ----

  /** The sockets of the device. Only an open socket can be closed or carry a websocket, and only one that carries none
      is to be closed. */
  class Network {
    var sockets: set<int>
    var websockets: map<int, int>

    constructor ()
      ensures sockets == {} && websockets == map[]
    {
      sockets, websockets := {}, map[];
    }

    method Open(fd: int)
      requires fd >= 0 && fd !in sockets
      modifies `sockets
      ensures sockets == old(sockets) + {fd}
    {
      sockets := sockets + {fd};
    }

    method Close(fd: int)
      requires fd in sockets && fd !in websockets.Values
      modifies `sockets
      ensures sockets == old(sockets) - {fd}
    {
      sockets := sockets - {fd};
    }

    method Connect(fd: int, ws: int)
      requires fd in sockets && ws >= 0 && ws !in websockets
      modifies `websockets
      ensures websockets == old(websockets)[ws := fd]
    {
      websockets := websockets[ws := fd];
    }

    method Disconnect(ws: int)
      requires ws in websockets
      modifies `websockets
      ensures websockets == old(websockets) - {ws}
    {
      websockets := websockets - {ws};
    }
  }

  class Connection {
    var step: Step
    var tlsFd: int
    var wsSock: int
    const net: Network
    var code: Option<string>

    ghost function Snapshot(): State
      reads this, net
    {
      State(step, tlsFd, wsSock, net.sockets, net.websockets, code)
    }

    constructor ()
      ensures Snapshot() == INITIAL && fresh(net)
    {
      step, tlsFd, wsSock, code := Init, -1, -1, None;
      net := new Network();
    }

    /** A connected TLS socket, or below 0: then there is no more of it. */
    method TlsConnect(seen: Seen) returns (fd: int)
      requires seen.socket >= 0 ==> seen.socket !in net.sockets
      requires net.websockets == map[]
      modifies net
      ensures net.websockets == map[]
      ensures fd >= 0 <==> seen.socket >= 0 && seen.connectErr == 0
      ensures fd >= 0 ==> fd == seen.socket && net.sockets == old(net.sockets) + {fd}
      ensures fd < 0 ==> net.sockets == old(net.sockets)
    {
      fd := seen.socket;
      if fd < 0 {
        return;
      }
      net.Open(fd);
      if seen.connectErr != 0 {
        net.Close(fd);
        fd := -1;
      }
    }

    /** Uses up a pending code over the TLS socket, and closes that. */
    method StepRegister(seen: Seen)
      requires Sane(Snapshot())
      modifies `tlsFd, `code, net
      ensures Snapshot() == Registered(old(Snapshot()), seen)
    {
      if !seen.pending {
        code := None;
        return;
      }
      var name := NameRead(seen.name);
      if |name| < REG_NAME_MIN_LEN || |name| > REG_NAME_MAX_LEN {
        code := Some("");
        return;
      }
      var fd := tlsFd;
      if fd < 0 {
        code := None;
        return;
      }
      var err := seen.imeiErr;
      code := None;
      if err == 0 {
        err := seen.httpErr;
        if err == 0 {
          code := Some("");
        }
      }
      net.Close(fd);
      tlsFd := -1;
      if err != 0 {
        code := Some(REG_CODE_REJECTED);
      }
    }

    /** A websocket on the TLS socket, or below 0: then the TLS socket is closed too. */
    method WebsocketConnect(seen: Seen) returns (ws: int)
      requires Sane(Snapshot()) && (seen.ws >= 0 ==> seen.ws !in net.websockets)
      modifies `tlsFd, net
      ensures old(tlsFd) < 0 ==> ws < 0 && unchanged(this) && unchanged(net)
      ensures old(tlsFd) >= 0 && seen.ws >= 0 ==>
                && ws == seen.ws && tlsFd == old(tlsFd) && net.sockets == old(net.sockets)
                && net.websockets == map[ws := tlsFd]
      ensures old(tlsFd) >= 0 && seen.ws < 0 ==>
                ws < 0 && tlsFd == -1 && net.sockets == old(net.sockets) - {old(tlsFd)} && net.websockets == map[]
    {
      var fd := tlsFd;
      if fd < 0 {
        return ENOTCONN;
      }
      ws := seen.ws;
      if ws < 0 {
        net.Close(fd);
        tlsFd := -1;
        return;
      }
      net.Connect(fd, ws);
    }

    /** Keeps a live websocket, over a socket that is open, until a round gives it up; says where to take the
        connection up again. */
    method Supervise(ws: int, rounds: seq<Round>) returns (next: Step)
      requires wsSock == ws >= 0 && ws in net.websockets && net.websockets[ws] == tlsFd && tlsFd in net.sockets
      requires rounds != [] && RoundEnds(rounds[|rounds| - 1])
      ensures next == Resume(FirstRoundEnd(rounds))
    {
      var i := 0;
      while true
        invariant 0 <= i < |rounds| && FirstRoundEnd(rounds[i..]) == FirstRoundEnd(rounds)
        decreases |rounds| - i
      {
        var round := rounds[i];
        assert rounds[i..][1..] == rounds[i + 1..];
        if round.pending {
          return Tls;
        }
        if !round.up {
          return Pdn;
        }
        if round.pingDue {
          if !round.pingSent {
            return Tls;
          }
        }
        if round.tx {
          if !round.txSent {
            return Tls;
          }
        }
        if round.recv != EAGAIN {
          if round.recv < 0 {
            return Tls;
          }
        }
        i := i + 1;
      }
    }

    /** Idles on the link until it is lost or there is a reason to connect. */
    method Idle(polls: seq<Poll>) returns (next: Step)
      requires polls != [] && PollEnds(polls[|polls| - 1])
      ensures next == if FirstEnd(polls).up then Tls else Pdn
    {
      var i := 0;
      while true
        invariant 0 <= i < |polls| && FirstEnd(polls[i..]) == FirstEnd(polls)
        decreases |polls| - i
      {
        assert polls[i..][1..] == polls[i + 1..];
        if !polls[i].up {
          return Pdn;
        }
        if polls[i].wanted {
          return Tls;
        }
        i := i + 1;
      }
    }

    /** One pass of the loop. */
    method Pass(seen: Seen)
      requires Sane(Snapshot()) && SeenOk(Snapshot(), seen)
      modifies this, net
      ensures Sane(Snapshot()) && Snapshot() == Next(old(Snapshot()), seen)
    {
      PassKeepsSane(Snapshot(), seen);
      match step
      case Init => if seen.err == 0 { step := Sim; }
      case Sim => if seen.err == 0 { step := Pdn; }
      case Pdn => if seen.err == 0 { step := Idle(seen.polls); }
      case Tls =>
        var fd := TlsConnect(seen);
        if fd >= 0 {
          tlsFd := fd;
          step := if seen.pendingThen then Register else Websocket;
        }
      case Register =>
        StepRegister(seen);
        step := Pdn;
      case Websocket => PassWebsocket(seen);
    }

    /** The websocket's step: from connecting it to closing it and the socket under it. */
    method PassWebsocket(seen: Seen)
      requires Sane(Snapshot()) && SeenOk(Snapshot(), seen) && step == Websocket
      modifies this, net
      ensures Snapshot() == Next(old(Snapshot()), seen)
    {
      var ws := WebsocketConnect(seen);
      if ws < 0 {
        step := Tls;
        return;
      }
      wsSock := ws;
      var next := Supervise(ws, seen.rounds);
      var rawFd := tlsFd;
      net.Disconnect(ws);
      net.Close(rawFd);
      wsSock, tlsFd := -1, -1;
      step := next;
    }
  }
}
