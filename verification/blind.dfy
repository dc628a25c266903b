/** The receiver and the transmitter over whole runs of the board: boundaries, and accesses of either
    CPU between them. Two remembered transmissions are as good as all of them, and where boundaries fall
    between accesses makes no difference. */
module BoardRuns {
  import opened Words
  import opened Memory
  import opened Adc
  import opened Boundaries
  import Tx = Transmitter

  /** An access to a device register; `Elsewhere` is another device's. */
  datatype Access =
    | TxStore(addr: int, value: int32) | TxLoad(addr: int)
    | AdcStore(addr: int, value: int32) | AdcLoad(addr: int) | Elsewhere

  /** One turn of a CPU: its boundary at `t`, and the access its instruction makes, if any. */
  datatype Turn = Silent(t: nat) | Touching(t: nat, access: Access)

  /** Master ticks in a CPU cycle and in a peripheral tick. */
  datatype Clock = Clock(cycle: nat, periph: nat)

  function AccessTime(ck: Clock): nat { ACCESS_CYCLES * ck.cycle }

  /** When the access of a turn comes. */
  function Reach(t: nat, ck: Clock): nat { t + AccessTime(ck) }

  /** The two devices and the shared memory, with every transmission since power-on. */
  datatype Site = Site(b: Board, history: seq<Tx.Span>)

  function Logged(s: Site): Tx.Logged { Tx.Logged(s.b.x, s.history) }

  function WithTx(s: Site, y: Tx.State): Site { Site(s.b.(x := y), Tx.Relogged(Logged(s), y).history) }

  // --- a device that remembers everything ---------------------------------------------------------------

  /** What a sample would be if the whole history were asked. */
  ghost function WholeTaken(b: Board, h: seq<Tx.Span>, sig: Signal, div: nat): (c: Board)
    requires Ok(b.a) && b.a.busy
    ensures Ok(c.a) && Left(c.a) < Left(b.a) && SameTransmitter(b.x, c.x)
  {
    var dark := Tx.BlindsInHistory(h, b.x.tsw, b.a.next);
    var (i, q) := sig(b.a.next);
    var bs := SampleBytes(if dark then (ADC_MAX, ADC_MAX) else (Quantized(i), Quantized(q)));
    Board(Counted(Buffered(b.a, bs), div), if dark then b.x.(blind := true) else b.x, Transferred(b.a, b.shared, bs))
  }

  ghost function WholeAdvanced(b: Board, h: seq<Tx.Span>, sig: Signal, t: nat, div: nat): (c: Board)
    requires Ok(b.a)
    ensures Ok(c.a) && SameTransmitter(b.x, c.x)
    decreases Left(b.a)
  {
    if b.a.busy && t >= b.a.next then WholeAdvanced(WholeTaken(b, h, sig, div), h, sig, t, div) else b
  }

  ghost function WholeServed(b: Board, h: seq<Tx.Span>, sig: Signal, t: nat, div: nat): (c: Board)
    requires Ok(b.a)
    ensures Ok(c.a) && SameTransmitter(b.x, c.x)
  {
    if !b.a.armed || t < b.a.at then WholeAdvanced(b, h, sig, t, div)
    else
      var c := WholeAdvanced(b, h, sig, b.a.at, div);
      var a := c.a.(armed := false);
      WholeAdvanced(c.(a := if a.busy then a.(overrun := true) else Begun(a, b.a.atBlock, b.a.at, div)), h, sig, t, div)
  }

  /** From an instant on, the slots answer as the history. */
  ghost predicate Agree(x: Tx.State, h: seq<Tx.Span>, from: nat) {
    forall ts: nat | ts >= from :: Tx.Blinds(x, ts) == Tx.BlindsInHistory(h, x.tsw, ts)
  }

  lemma {:induction false} AdvanceAgrees(b: Board, h: seq<Tx.Span>, sig: Signal, t: nat, div: nat, from: nat)
    requires Ok(b.a) && Agree(b.x, h, from) && (b.a.busy ==> b.a.next >= from)
    ensures WholeAdvanced(b, h, sig, t, div) == Advanced(b, sig, t, div)
    ensures Agree(Advanced(b, sig, t, div).x, h, from)
    decreases Left(b.a)
  {
    if b.a.busy && t >= b.a.next {
      var c := Taken(b, sig, div);
      assert c == WholeTaken(b, h, sig, div);
      DazzledAgrees(b.x, h, from, b.a.next);
      AdvanceAgrees(c, h, sig, t, div, from);
    }
  }

  lemma DazzledAgrees(x: Tx.State, h: seq<Tx.Span>, from: nat, ts: nat)
    requires Agree(x, h, from)
    ensures Agree(Dazzled(x, ts), h, from)
  {
    forall u: nat | u >= from
      ensures Tx.Blinds(Dazzled(x, ts), u) == Tx.BlindsInHistory(h, Dazzled(x, ts).tsw, u)
    {
      assert Tx.Blinds(x, u) == Tx.BlindsInHistory(h, x.tsw, u);
    }
  }

  lemma ServeAgrees(b: Board, h: seq<Tx.Span>, sig: Signal, t: nat, div: nat, from: nat)
    requires Ok(b.a) && Agree(b.x, h, from) && (b.a.busy ==> b.a.next >= from) && (b.a.armed ==> b.a.at >= from)
    ensures WholeServed(b, h, sig, t, div) == Served(b, sig, t, div)
  {
    if b.a.armed && t >= b.a.at {
      AdvanceAgrees(b, h, sig, b.a.at, div, from);
      AdvanceIsDone(b, sig, b.a.at, div);
      AdvanceKeepsArming(b, sig, b.a.at, div);
    }
    AdvanceAgrees(Triggered(b, sig, t, div), h, sig, t, div, from);
  }

  // --- turns ------------------------------------------------------------------------------------------------

  function Looked(s: Site, t: nat, ck: Clock): (c: Site)
    requires Settled(s.b)
    ensures Settled(c.b) && c.b.a == s.b.a && c.b.shared == s.b.shared
  {
    WithTx(s, Tx.Fired(s.b.x, t, ck.periph))
  }

  /** A boundary; `whole` asks the history instead of the two slots. */
  ghost function AtBoundary(whole: bool, s: Site, sig: Signal, t: nat, ck: Clock): (c: Site)
    requires Settled(s.b)
    ensures Settled(c.b)
  {
    var l := Looked(s, t, ck);
    if whole then Site(WholeServed(l.b, l.history, sig, t, ck.periph), l.history)
    else
      BoundaryIsSettled(s.b, sig, t, ck.periph);
      Site(Boundary(s.b, sig, t, ck.periph), l.history)
  }

  function TxAfter(x: Tx.State, access: Access, a: nat, ck: Clock): (y: Tx.State)
    requires x.armed ==> x.atLen > 0
    ensures y.armed ==> y.atLen > 0
  {
    match access
    case TxStore(addr, value) => Tx.Stored(x, addr, value, a, ck.periph)
    case TxLoad(addr) => Tx.AfterLoad(x, addr)
    case _ => x
  }

  function AdcAfter(s: State, access: Access, a: nat, ck: Clock): (c: State)
    requires Ok(s)
    ensures Ok(c)
  {
    match access
    case AdcStore(addr, value) => Stored(s, addr, value, a, ck.periph)
    case AdcLoad(addr) => AfterLoad(s, addr)
    case _ => s
  }

  /** An access at `a`: the armed start is looked at first. */
  function Accessed(s: Site, a: nat, access: Access, ck: Clock): (c: Site)
    requires Settled(s.b)
    ensures Settled(c.b)
  {
    var l := Looked(s, a, ck);
    WithTx(l.(b := l.b.(a := AdcAfter(l.b.a, access, a, ck))), TxAfter(l.b.x, access, a, ck))
  }

  /** One turn. */
  ghost function Turned(whole: bool, s: Site, sig: Signal, u: Turn, ck: Clock): (c: Site)
    requires Settled(s.b)
    ensures Settled(c.b)
  {
    var c := AtBoundary(whole, s, sig, u.t, ck);
    match u
    case Silent(_) => c
    case Touching(t, access) => Accessed(c, Reach(t, ck), access, ck)
  }

  ghost function Played(whole: bool, s: Site, sig: Signal, us: seq<Turn>, ck: Clock): (c: Site)
    requires Settled(s.b)
    ensures Settled(c.b)
    decreases |us|
  {
    if us == [] then s else Played(whole, Turned(whole, s, sig, us[0], ck), sig, us[1..], ck)
  }

  // --- what every turn keeps ------------------------------------------------------------------------------------

  /** After a turn whose boundary was at `t`, the last access so far at `a`: what is pending is later than
      both, and what has begun is not. */
  predicate TxTimely(x: Tx.State, t: nat, a: nat) {
    && (x.armed ==> x.atLen > 0 && x.at > t && x.at > a)
    && (x.n > 0 ==> x.last.start <= t || x.last.start <= a)
  }

  predicate AdcTimely(s: State, t: nat) { Ok(s) && (s.busy ==> s.next > t) && (s.armed ==> s.at > t) }

  ghost predicate Timely(s: Site, t: nat, a: nat) {
    Tx.Faithful(Logged(s)) && TxTimely(s.b.x, t, a) && AdcTimely(s.b.a, t)
  }

  /** Looking at instant t: an armed start that is due has begun at its instant. */
  lemma FireIsTimely(x: Tx.State, t: nat, periph: nat)
    requires periph > 0 && (x.armed ==> x.atLen > 0)
    ensures var y := Tx.Fired(x, t, periph);
      && Tx.Follows(x, y)
      && (y.armed ==> x.armed && y.at == x.at && y.at > t)
      && (y.n > 0 ==> (x.n > 0 && y.last.start == x.last.start) || y.last.start <= t)
  {
    Tx.FireFollows(x, t, periph);
  }

  lemma StoreIsTimely(x: Tx.State, access: Access, a: nat, ck: Clock)
    requires ck.periph > 0 && (x.armed ==> x.atLen > 0 && x.at > a)
    ensures var y := TxAfter(x, access, a, ck);
      && Tx.Follows(x, y) && (y.armed ==> y.at > a)
      && (y.n > 0 ==> (x.n > 0 && y.last.start == x.last.start) || y.last.start == a)
  {
    if access.TxStore? && access.addr == Tx.TX_CTRL {
      ControlIsTimely(x, access.value, a, ck.periph);
    } else {
      QuietIsTimely(x, access, a, ck);
    }
  }

  lemma ControlIsTimely(x: Tx.State, value: int32, a: nat, periph: nat)
    requires periph > 0 && (x.armed ==> x.atLen > 0)
    ensures var y := Tx.Controlled(x, value, a, periph);
      Tx.Follows(x, y) && (y.n > 0 ==> (x.n > 0 && y.last.start == x.last.start) || y.last.start == a)
  {
    Tx.ControlFollows(x, value, a, periph);
  }

  lemma ArmIsTimely(x: Tx.State, value: int32, a: nat)
    requires x.armed ==> x.atLen > 0
    ensures var y := Tx.Armed(x, value, a);
      Tx.Follows(x, y) && (y.armed ==> y.at > a) && y.n == x.n && y.last == x.last
  {
    Tx.ArmFollows(x, value, a);
  }

  /** Any other access begins nothing. */
  lemma QuietIsTimely(x: Tx.State, access: Access, a: nat, ck: Clock)
    requires (x.armed ==> x.atLen > 0 && x.at > a) && !(access.TxStore? && access.addr == Tx.TX_CTRL)
    ensures var y := TxAfter(x, access, a, ck);
      Tx.Follows(x, y) && (y.armed ==> y.at > a) && y.n == x.n && y.last == x.last
  {
    if access.TxStore? {
      if access.addr == Tx.TX_AT {
        ArmIsTimely(x, access.value, a);
      } else {
        OtherStoreIsTimely(x, access.addr, access.value, a, ck.periph);
      }
    }
  }

  lemma OtherStoreIsTimely(x: Tx.State, addr: int, value: int32, a: nat, div: nat)
    requires (x.armed ==> x.atLen > 0 && x.at > a) && addr !in {Tx.TX_AT, Tx.TX_CTRL}
    ensures var y := Tx.Stored(x, addr, value, a, div);
      Tx.Follows(x, y) && (y.armed ==> y.at > a) && y.n == x.n && y.last == x.last
  {
  }

  lemma AdcAccessIsTimely(s: State, access: Access, t: nat, a: nat, ck: Clock)
    requires AdcTimely(s, t) && ck.periph > 0 && t <= a
    ensures AdcTimely(AdcAfter(s, access, a, ck), t)
  {
    if access.AdcStore? && access.addr == ADC_CTRL && access.value % 2 == 1 && !s.busy && ConfigOk(s.conf) {
      Scaled(s.conf.period, ck.periph);
    }
  }

  lemma WithTxFaithful(s: Site, y: Tx.State)
    requires Tx.Faithful(Logged(s)) && Tx.Follows(s.b.x, y)
    ensures Tx.Faithful(Logged(WithTx(s, y)))
  {
    Tx.FollowsFaithful(Logged(s), y);
  }

  lemma BoundaryIsTimely(s: Site, sig: Signal, t0: nat, a: nat, t: nat, ck: Clock)
    requires Timely(s, t0, a) && t0 <= t && ck.periph > 0
    ensures Timely(AtBoundary(false, s, sig, t, ck), t, a)
  {
    var y := Tx.Fired(s.b.x, t, ck.periph);
    FiredTimely(s.b.x, t0, a, t, ck.periph);
    WithTxFaithful(s, y);
    var c := AtBoundary(false, s, sig, t, ck);
    ServeLeavesTransmitter(s.b.(x := y), sig, t, ck.periph);
    ServeIsDone(s.b.(x := y), sig, t, ck.periph);
    BlindFaithful(Logged(Looked(s, t, ck)), c.b.x);
  }

  lemma FiredTimely(x: Tx.State, t0: nat, a: nat, t: nat, periph: nat)
    requires TxTimely(x, t0, a) && t0 <= t && periph > 0
    ensures TxTimely(Tx.Fired(x, t, periph), t, a) && Tx.Follows(x, Tx.Fired(x, t, periph))
  {
    FireIsTimely(x, t, periph);
  }

  lemma BlindFaithful(l: Tx.Logged, y: Tx.State)
    requires Tx.Faithful(l) && SameTransmitter(l.x, y)
    ensures Tx.Faithful(Tx.Logged(y, l.history))
  {
  }

  lemma AccessIsTimely(s: Site, t: nat, a0: nat, a: nat, access: Access, ck: Clock)
    requires Timely(s, t, a0) && t <= a && a0 <= a && ck.periph > 0
    ensures Timely(Accessed(s, a, access, ck), t, a)
  {
    var x := Tx.Fired(s.b.x, a, ck.periph);
    FireIsTimely(s.b.x, a, ck.periph);
    WithTxFaithful(s, x);
    StoreIsTimely(x, access, a, ck);
    AdcAccessIsTimely(s.b.a, access, t, a, ck);
    var l := Looked(s, a, ck);
    var m := l.(b := l.b.(a := AdcAfter(l.b.a, access, a, ck)));
    assert Logged(m) == Logged(l) && m.b.x == x;
    WithTxFaithful(m, TxAfter(x, access, a, ck));
  }

  /** Power-on: nothing armed, nothing running, nothing transmitted. */
  predicate Fresh(s: Site) {
    !s.b.a.busy && !s.b.a.armed && !s.b.x.armed && s.b.x.n == 0 && s.b.x.len == 0 && s.history == []
  }

  /** The devices as they come out of their constructors are such a state. */
  method PowerUp(switching: nat) returns (adc: VAdc, tx: Tx.VTx, shared: array<byte>)
    ensures fresh(adc) && fresh(tx) && fresh(shared) && adc.Valid(shared, tx)
    ensures var b := adc.Contents(shared, tx);
      b == Board(Reset(), Tx.Off(switching), seq(SHARED_SIZE, i => 0)) && Fresh(Site(b, []))
  {
    adc := new VAdc();
    tx := new Tx.VTx(switching);
    shared := new byte[SHARED_SIZE](i => 0);
  }

  /** Boundaries in order, from `t` on. */
  ghost predicate InTime(t: nat, us: seq<Turn>)
    decreases |us|
  {
    us == [] || (t <= us[0].t && InTime(us[0].t, us[1..]))
  }

  /** Where the last boundary and the last access of a run were. */
  function LastBoundary(t: nat, us: seq<Turn>): nat { if us == [] then t else us[|us| - 1].t }

  function LastAccess(a: nat, us: seq<Turn>, ck: Clock): nat
    decreases |us|
  {
    if us == [] then a
    else LastAccess(if us[0].Touching? then Reach(us[0].t, ck) else a, us[1..], ck)
  }

  lemma TurnIsTimely(s: Site, sig: Signal, t: nat, a: nat, u: Turn, ck: Clock)
    requires Timely(s, t, a) && t <= u.t && a <= Reach(t, ck) && ck.periph > 0
    ensures var a1 := if u.Touching? then Reach(u.t, ck) else a;
      Timely(Turned(false, s, sig, u, ck), u.t, a1) && a1 <= Reach(u.t, ck)
  {
    BoundaryIsTimely(s, sig, t, a, u.t, ck);
    if u.Touching? {
      AccessIsTimely(AtBoundary(false, s, sig, u.t, ck), u.t, a, Reach(u.t, ck), u.access, ck);
    }
  }

  lemma {:induction false} PlayIsTimely(s: Site, sig: Signal, t: nat, a: nat, us: seq<Turn>, ck: Clock)
    requires Timely(s, t, a) && a <= Reach(t, ck) && InTime(t, us) && ck.periph > 0
    ensures Timely(Played(false, s, sig, us, ck), LastBoundary(t, us), LastAccess(a, us, ck))
    decreases |us|
  {
    if us != [] {
      TurnIsTimely(s, sig, t, a, us[0], ck);
      PlayIsTimely(Turned(false, s, sig, us[0], ck), sig, us[0].t,
        if us[0].Touching? then Reach(us[0].t, ck) else a, us[1..], ck);
    }
  }

  // --- between accesses ------------------------------------------------------------------------------------------

  /** After any accesses, at a boundary no access is ahead of: everything still to come is in order. */
  lemma QuietIsInOrder(s: Site, sig: Signal, us: seq<Turn>, t: nat, ck: Clock)
    requires Fresh(s) && InTime(0, us) && ck.periph > 0
    requires LastBoundary(0, us) <= t && LastAccess(0, us, ck) <= t
    ensures InOrder(AtBoundary(false, Played(false, s, sig, us, ck), sig, t, ck).b)
  {
    PlayIsTimely(s, sig, 0, 0, us, ck);
    var p := Played(false, s, sig, us, ck);
    BoundaryIsTimely(p, sig, LastBoundary(0, us), LastAccess(0, us, ck), t, ck);
  }

  /** From there, until the next access, all that counts of the boundaries is the last. */
  lemma ReachedBoundariesDoNotMatter(s: Site, sig: Signal, us: seq<Turn>, t: nat, ck: Clock, vs: seq<nat>, ws: seq<nat>)
    requires Fresh(s) && InTime(0, us) && ck.periph > 0
    requires LastBoundary(0, us) <= t && LastAccess(0, us, ck) <= t
    requires vs != [] && ws != [] && Nondecreasing(vs) && Nondecreasing(ws) && vs[|vs| - 1] == ws[|ws| - 1]
    ensures var b := AtBoundary(false, Played(false, s, sig, us, ck), sig, t, ck).b;
      Run(b, sig, vs, ck.periph) == Run(b, sig, ws, ck.periph)
  {
    QuietIsInOrder(s, sig, us, t, ck);
    var b := AtBoundary(false, Played(false, s, sig, us, ck), sig, t, ck).b;
    BoundariesDoNotMatter(b, sig, vs, ws, ck.periph);
  }

  // --- boundaries no turn asked for -----------------------------------------------------------------------------

  /** The boundaries of a run are in order, and none comes after an access with none between the two: the
      CPU that made the access takes its next turn when the access is over. */
  ghost predicate Timeline(t: nat, a: nat, us: seq<Turn>, ck: Clock)
    decreases |us|
  {
    us == [] || (t <= us[0].t && !(t < a < us[0].t)
      && Timeline(us[0].t, if us[0].Touching? then Reach(us[0].t, ck) else a, us[1..], ck))
  }

  lemma OneMoreTurn(t: nat, a: nat, u: Turn, us: seq<Turn>, ck: Clock)
    requires t <= u.t && !(t < a < u.t) && Timeline(u.t, if u.Touching? then Reach(u.t, ck) else a, us, ck)
    ensures Timeline(t, a, [u] + us, ck)
  {
    assert ([u] + us)[1..] == us;
  }

  /** Between two turns of a run an armed start finds the slots in order. */
  lemma StartIsInOrder(s: Site, t: nat, a: nat, t1: nat)
    requires Timely(s, t, a) && !(t < a < t1)
    ensures Settled(s.b)
    ensures StartsBetween(s.b.x, t, t1) ==> InOrder(s.b)
  {
  }

  lemma LookedTwice(s: Site, c: Site, e: nat, t1: nat, ck: Clock)
    requires Settled(s.b) && Settled(c.b) && e <= t1 && c.history == Looked(s, e, ck).history
    requires SameTransmitter(Tx.Fired(s.b.x, e, ck.periph), c.b.x)
    ensures Looked(c, t1, ck).history == Looked(s, t1, ck).history
  {
    if s.b.x.armed && e >= s.b.x.at {
      assert Tx.Fired(c.b.x, t1, ck.periph) == c.b.x;
    } else {
      FiredAlike(s.b.x, c.b.x, t1, ck.periph);
    }
  }

  lemma FiredAlike(x: Tx.State, y: Tx.State, t: nat, periph: nat)
    requires (x.armed ==> x.atLen > 0) && SameTransmitter(x, y)
    ensures SameTransmitter(Tx.Fired(x, t, periph), Tx.Fired(y, t, periph))
  {
  }

  /** One more boundary, before the next one of a run, changes nothing that is left after it. */
  lemma ExtraBoundary(s: Site, sig: Signal, t: nat, a: nat, e: nat, t1: nat, ck: Clock)
    requires Timely(s, t, a) && t <= e <= t1 && !(t < a < t1)
    ensures AtBoundary(false, AtBoundary(false, s, sig, e, ck), sig, t1, ck) == AtBoundary(false, s, sig, t1, ck)
  {
    StartIsInOrder(s, t, a, t1);
    BoundaryTwice(s.b, sig, e, t1, ck.periph);
    ServeLeavesTransmitter(s.b.(x := Tx.Fired(s.b.x, e, ck.periph)), sig, e, ck.periph);
    LookedTwice(s, AtBoundary(false, s, sig, e, ck), e, t1, ck);
  }

  /** `vs` is `us` with boundaries of no turn put in, none of them after the last turn. */
  ghost predicate Denser(us: seq<Turn>, vs: seq<Turn>)
    decreases |vs|
  {
    if vs == [] then us == []
    else (us != [] && us[0] == vs[0] && Denser(us[1..], vs[1..])) || (vs[0].Silent? && us != [] && Denser(us, vs[1..]))
  }

  lemma {:induction false} NextIsLater(us: seq<Turn>, vs: seq<Turn>, t: nat)
    requires Denser(us, vs) && InTime(t, vs) && us != []
    ensures t <= us[0].t
    decreases |vs|
  {
    if us[0] != vs[0] || !Denser(us[1..], vs[1..]) {
      NextIsLater(us, vs[1..], vs[0].t);
    }
  }

  lemma {:induction false} DenserPlaysAlike(
      s: Site, sig: Signal, t: nat, a: nat, us: seq<Turn>, vs: seq<Turn>, ck: Clock)
    requires Timely(s, t, a) && a <= Reach(t, ck) && ck.periph > 0
    requires Timeline(t, a, us, ck) && InTime(t, vs) && Denser(us, vs)
    ensures Played(false, s, sig, vs, ck) == Played(false, s, sig, us, ck)
    decreases |vs|
  {
    if vs != [] {
      if us[0] == vs[0] && Denser(us[1..], vs[1..]) {
        TurnIsTimely(s, sig, t, a, us[0], ck);
        DenserPlaysAlike(Turned(false, s, sig, us[0], ck), sig, us[0].t,
          if us[0].Touching? then Reach(us[0].t, ck) else a, us[1..], vs[1..], ck);
      } else {
        var e := vs[0].t;
        NextIsLater(us, vs[1..], e);
        BoundaryIsTimely(s, sig, t, a, e, ck);
        DenserPlaysAlike(AtBoundary(false, s, sig, e, ck), sig, e, a, us, vs[1..], ck);
        ExtraBoundary(s, sig, t, a, e, us[0].t, ck);
      }
    }
  }

  /** From power-on, over every run: the devices may be brought up to date at any further instants, and as
      often as one likes, and every sample, every bit and every transmission stays what it was. */
  lemma ExtraBoundariesDoNotMatter(s: Site, sig: Signal, us: seq<Turn>, vs: seq<Turn>, ck: Clock)
    requires Fresh(s) && Ok(s.b.a) && ck.periph > 0
    requires Timeline(0, 0, us, ck) && InTime(0, vs) && Denser(us, vs)
    ensures Played(false, s, sig, vs, ck) == Played(false, s, sig, us, ck)
  {
    DenserPlaysAlike(s, sig, 0, 0, us, vs, ck);
  }

  // --- two slots are enough -----------------------------------------------------------------------------------------

  function Duration(len: int, ck: Clock): int { len * ck.periph }

  /** No transmission of this length ends before one access of a CPU has passed. */
  predicate Long(len: int32, ck: Clock) { len <= 0 || Duration(len, ck) >= AccessTime(ck) }

  predicate StoresLong(access: Access, ck: Clock) {
    access.TxStore? && access.addr == Tx.TX_LEN ==> Long(access.value, ck)
  }

  /** What a program can see to: every length it stores is long. */
  ghost predicate AllLong(us: seq<Turn>, ck: Clock) {
    forall u | u in us && u.Touching? :: StoresLong(u.access, ck)
  }

  predicate LongSpan(s: Tx.Span, ck: Clock) { s.start + AccessTime(ck) <= s.end }

  predicate Lasting(x: Tx.State, ck: Clock) {
    && Long(x.len, ck) && (x.armed ==> Long(x.atLen, ck))
    && (x.n > 0 ==> LongSpan(x.last, ck)) && (x.n > 1 ==> LongSpan(x.prev, ck))
  }

  lemma FireLasts(x: Tx.State, t: nat, ck: Clock)
    requires Lasting(x, ck) && (x.armed ==> x.atLen > 0)
    ensures Lasting(Tx.Fired(x, t, ck.periph), ck)
  {
    if x.armed && t >= x.at && !Tx.On(x, x.at) {
      var y := Tx.Fired(x, t, ck.periph);
      assert y.last == Tx.Span(x.at, x.at + Duration(x.atLen, ck)) && y.prev == x.last;
    }
  }

  lemma ControlLasts(x: Tx.State, value: int32, a: nat, ck: Clock)
    requires Lasting(x, ck)
    ensures Lasting(Tx.Controlled(x, value, a, ck.periph), ck)
  {
    var neg := value / 2 % 2 == 1;
    var y := x.(cfgNeg := neg);
    assert Lasting(y, ck) && Lasting(y.(overrun := true), ck);
    StartLasts(y, a, neg, ck);
  }

  lemma StartLasts(x: Tx.State, a: nat, neg: bool, ck: Clock)
    requires Lasting(x, ck)
    ensures x.len > 0 ==> Lasting(Tx.Started(x, a, x.len, neg, ck.periph), ck)
  {
    if x.len > 0 {
      assert Tx.Started(x, a, x.len, neg, ck.periph).last == Tx.Span(a, a + Duration(x.len, ck));
    }
  }

  lemma ArmLasts(x: Tx.State, value: int32, a: nat, ck: Clock)
    requires Lasting(x, ck)
    ensures Lasting(Tx.Armed(x, value, a), ck)
  {
  }

  lemma StoreLasts(x: Tx.State, access: Access, a: nat, ck: Clock)
    requires Lasting(x, ck) && (x.armed ==> x.atLen > 0) && StoresLong(access, ck)
    ensures Lasting(TxAfter(x, access, a, ck), ck)
  {
    if access.TxStore? && access.addr == Tx.TX_CTRL {
      ControlLasts(x, access.value, a, ck);
    } else if access.TxStore? && access.addr == Tx.TX_AT {
      ArmLasts(x, access.value, a, ck);
    } else if access.TxStore? && access.addr == Tx.TX_LEN {
      assert TxAfter(x, access, a, ck) == x.(len := access.value);
    } else if access.TxLoad? {
      assert Lasting(Tx.AfterLoad(x, access.addr), ck);
    } else {
      assert TxAfter(x, access, a, ck) == x;
    }
  }

  /** At a boundary at t1 that follows one at t, at most one transmission has begun after t. */
  lemma OneStartAhead(s: Site, t: nat, a: nat, t1: nat, ck: Clock)
    requires Timely(s, t, a) && Lasting(s.b.x, ck) && a <= Reach(t, ck) && t <= t1 && !(t < a < t1) && ck.periph > 0
    ensures var y := Looked(s, t1, ck).b.x; y.n > 1 ==> y.prev.start <= t
  {
    var x := s.b.x;
    var y := Tx.Fired(x, t1, ck.periph);
    if x.n > 1 {
      assert x.prev.end <= x.last.start;
    }
    if y.n != x.n {
      assert y.prev == x.last && x.armed && x.at <= t1;
    } else {
      assert y.prev == x.prev;
    }
  }

  lemma SlotsAgree(l: Tx.Logged, from: nat)
    requires Tx.Faithful(l) && (l.x.n > 1 ==> l.x.prev.start <= from)
    ensures Agree(l.x, l.history, from)
  {
    forall ts: nat | ts >= from
      ensures Tx.Blinds(l.x, ts) == Tx.BlindsInHistory(l.history, l.x.tsw, ts)
    {
      Tx.TwoSlotsSuffice(l, ts);
    }
  }

  /** A boundary takes the samples a device with the whole history would. */
  lemma BoundaryIsWhole(s: Site, sig: Signal, t: nat, a: nat, t1: nat, ck: Clock)
    requires Timely(s, t, a) && Lasting(s.b.x, ck) && a <= Reach(t, ck) && t <= t1 && !(t < a < t1) && ck.periph > 0
    ensures AtBoundary(true, s, sig, t1, ck) == AtBoundary(false, s, sig, t1, ck)
  {
    var l := Looked(s, t1, ck);
    FireIsTimely(s.b.x, t1, ck.periph);
    WithTxFaithful(s, Tx.Fired(s.b.x, t1, ck.periph));
    OneStartAhead(s, t, a, t1, ck);
    SlotsAgree(Logged(l), t + 1);
    ServeAgrees(l.b, l.history, sig, t1, ck.periph, t + 1);
    assert l.b == s.b.(x := Tx.Fired(s.b.x, t1, ck.periph));
  }

  lemma BoundaryLasts(s: Site, sig: Signal, t: nat, ck: Clock)
    requires Settled(s.b) && Lasting(s.b.x, ck)
    ensures Lasting(AtBoundary(false, s, sig, t, ck).b.x, ck)
  {
    FireLasts(s.b.x, t, ck);
    var l := Looked(s, t, ck);
    assert l.b == s.b.(x := Tx.Fired(s.b.x, t, ck.periph));
    ServeLeavesTransmitter(l.b, sig, t, ck.periph);
  }

  lemma AccessLasts(s: Site, a: nat, access: Access, ck: Clock)
    requires Settled(s.b) && Lasting(s.b.x, ck) && StoresLong(access, ck)
    ensures Lasting(Accessed(s, a, access, ck).b.x, ck)
  {
    FireLasts(s.b.x, a, ck);
    StoreLasts(Tx.Fired(s.b.x, a, ck.periph), access, a, ck);
  }

  lemma TurnLasts(s: Site, sig: Signal, u: Turn, ck: Clock)
    requires Settled(s.b) && Lasting(s.b.x, ck) && (u.Touching? ==> StoresLong(u.access, ck))
    ensures Lasting(Turned(false, s, sig, u, ck).b.x, ck)
  {
    BoundaryLasts(s, sig, u.t, ck);
    if u.Touching? {
      AccessLasts(AtBoundary(false, s, sig, u.t, ck), Reach(u.t, ck), u.access, ck);
    }
  }

  lemma {:induction false} PlayedAlike(s: Site, sig: Signal, t: nat, a: nat, us: seq<Turn>, ck: Clock)
    requires Timely(s, t, a) && Lasting(s.b.x, ck) && a <= Reach(t, ck) && ck.periph > 0
    requires Timeline(t, a, us, ck) && AllLong(us, ck)
    ensures Played(true, s, sig, us, ck) == Played(false, s, sig, us, ck)
    decreases |us|
  {
    if us != [] {
      assert us[0] in us;
      BoundaryIsWhole(s, sig, t, a, us[0].t, ck);
      TurnIsTimely(s, sig, t, a, us[0], ck);
      TurnLasts(s, sig, us[0], ck);
      PlayedAlike(Turned(false, s, sig, us[0], ck), sig, us[0].t,
        if us[0].Touching? then Reach(us[0].t, ck) else a, us[1..], ck);
    }
  }

  /** From power-on, over every run whose transmissions are long enough: the device with two slots does,
      sample for sample and byte for byte, what one that forgets nothing would do. */
  lemma TwoSlotsAreWhole(s: Site, sig: Signal, us: seq<Turn>, ck: Clock)
    requires Fresh(s) && Ok(s.b.a) && ck.periph > 0 && Timeline(0, 0, us, ck) && AllLong(us, ck)
    ensures Played(true, s, sig, us, ck) == Played(false, s, sig, us, ck)
  {
    PlayedAlike(s, sig, 0, 0, us, ck);
  }
}
