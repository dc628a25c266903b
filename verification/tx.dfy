/** The transmitter. It remembers only the last two transmissions; a sample of the receiver asks it
    whether it was taken while a transmission, or the switching time after it, was in progress. */
module Transmitter {
  import opened Words
  import opened Memory

  const TX_LEN := MMIO_BASE + 0x54
  const TX_CTRL := MMIO_BASE + 0x58
  const TX_STATUS := MMIO_BASE + 0x5C
  const TX_AT := MMIO_BASE + 0x74

  /** One transmission: from `start` to `end`, the latter excluded, in master ticks. */
  datatype Span = Span(start: nat, end: nat)

  datatype State = State(
    len: int32, last: Span, prev: Span, n: nat, tsw: nat, neg: bool, cfgNeg: bool, blind: bool,
    overrun: bool, armed: bool, late: bool, at: nat, atLen: int32, atNeg: bool)

  predicate On(x: State, t: nat) { x.n > 0 && t < x.last.end }

  predicate Blinds(x: State, ts: nat) {
    || (x.n > 0 && x.last.start <= ts < x.last.end + x.tsw)
    || (x.n > 1 && x.prev.start <= ts < x.prev.end + x.tsw)
  }

  function Started(x: State, t: nat, len: int32, neg: bool, div: nat): State
    requires len > 0
  {
    x.(prev := x.last, last := Span(t, t + (len as int) * div), neg := neg, n := x.n + 1)
  }

  /** The armed instant, as soon as someone looks: the transmission starts at the instant itself. */
  function Fired(x: State, t: nat, div: nat): State
    requires x.armed ==> x.atLen > 0
  {
    if !x.armed || t < x.at then x
    else if On(x, x.at) then x.(armed := false, overrun := true)
    else Started(x.(armed := false), x.at, x.atLen, x.atNeg, div)
  }

  function Armed(x: State, value: int32, t: nat): (y: State)
    ensures y.armed ==> y.atLen == x.len > 0 && y.at > t
    ensures y.len == x.len && y.n == x.n && y.last == x.last && y.prev == x.prev
  {
    var gap := WrappedGap(value, t);
    if gap <= 0 then x.(armed := false, late := true)
    else if x.len <= 0 then x.(armed := false)
    else x.(at := t + gap, atLen := x.len, atNeg := x.cfgNeg, armed := true)
  }

  function Controlled(x: State, value: int32, t: nat, div: nat): (y: State)
    ensures y.armed == x.armed && y.at == x.at && y.atLen == x.atLen
  {
    var y := x.(cfgNeg := value / 2 % 2 == 1);
    if value % 2 == 0 then y
    else if On(y, t) then y.(overrun := true)
    else if y.len <= 0 then y
    else Started(y, t, y.len, y.cfgNeg, div)
  }

  function Stored(x: State, addr: int, value: int32, t: nat, div: nat): (y: State)
    ensures (x.armed ==> x.atLen > 0) && y.armed ==> y.atLen > 0
  {
    if addr == TX_LEN then x.(len := value)
    else if addr == TX_AT then Armed(x, value, t)
    else if addr == TX_CTRL then Controlled(x, value, t, div)
    else x
  }

  /** Reading the status lowers the bits it reports, except the one that is time itself. */
  function AfterLoad(x: State, addr: int): State {
    if addr == TX_STATUS then x.(blind := false, overrun := false)
    else if addr == TX_AT then x.(late := false)
    else x
  }

  function LoadValue(x: State, addr: int, t: nat): int {
    if addr == TX_STATUS then Flag(On(x, t), 1) + Flag(x.blind, 2) + Flag(x.overrun, 4)
    else if addr == TX_LEN then x.len
    else if addr == TX_AT then Flag(x.armed, 1) + Flag(x.late, 2)
    else 0
  }

  predicate Owns(addr: int, writing: bool) {
    addr == TX_LEN || addr == TX_AT || (if writing then addr == TX_CTRL else addr == TX_STATUS)
  }

  // --- the device ----------------------------------------------------------------------------

  class VTx {
    var len: int32
    const start: array<nat>
    const end: array<nat>
    var n: nat
    var tsw: nat
    var neg: bool
    var cfgNeg: bool
    var blind: bool
    var overrun: bool
    var armed: bool
    var late: bool
    var at: nat
    var atLen: int32
    var atNeg: bool

    ghost predicate Valid()
      reads this
    {
      start.Length == 2 && end.Length == 2 && start != end && (armed ==> atLen > 0)
    }

    ghost function Contents(): State
      requires Valid()
      reads this, start, end
    {
      State(len, Span(start[0], end[0]), Span(start[1], end[1]), n, tsw, neg, cfgNeg, blind, overrun, armed,
        late, at, atLen, atNeg)
    }

    constructor (switching: nat)
      ensures Valid() && fresh(start) && fresh(end)
      ensures Contents() == Off(switching)
    {
      start, end := new nat[2](i => 0), new nat[2](i => 0);
      len, n, tsw, at, atLen := 0, 0, switching, 0, 0;
      neg, cfgNeg, blind, overrun, armed, late, atNeg := false, false, false, false, false, false, false;
    }

    method Begin(t0: nat, length: int32, sign: bool, div: nat)
      requires Valid() && length > 0
      modifies this`n, this`neg, start, end
      ensures Valid() && Contents() == Started(old(Contents()), t0, length, sign, div)
    {
      start[1], end[1] := start[0], end[0];
      start[0], end[0] := t0, t0 + (length as int) * div;
      neg := sign;
      n := n + 1;
    }

    method Fire(t: nat, div: nat) returns (started: bool)
      requires Valid()
      modifies this, start, end
      ensures Valid()
      ensures Contents() == Fired(old(Contents()), t, div)
      ensures started == (n == old(n) + 1)
    {
      if !armed || t < at {
        return false;
      }
      armed := false;
      if n > 0 && at < end[0] {
        overrun := true;
        return false;
      }
      Begin(at, atLen, atNeg, div);
      return true;
    }

    method Arm(value: int32, t: nat)
      requires Valid()
      modifies this
      ensures Valid() && Contents() == Armed(old(Contents()), value, t)
    {
      armed := false;
      var gap := WrappedGap(value, t);
      if gap <= 0 {
        late := true;
      } else if len > 0 {
        at, atLen, atNeg, armed := t + gap, len, cfgNeg, true;
      }
    }

    method Control(value: int32, t: nat, div: nat)
      requires Valid()
      modifies this, start, end
      ensures Valid() && Contents() == Controlled(old(Contents()), value, t, div)
    {
      cfgNeg := value / 2 % 2 == 1;
      if value % 2 == 1 {
        if n > 0 && t < end[0] {
          overrun := true;
        } else if len > 0 {
          Begin(t, len, cfgNeg, div);
        }
      }
    }

    method Store(addr: int, value: int32, t: nat, div: nat) returns (mine: bool)
      requires Valid()
      modifies this, start, end
      ensures Valid() && mine == Owns(addr, true)
      ensures Contents() == Stored(old(Contents()), addr, value, t, div)
    {
      mine := true;
      if addr == TX_LEN {
        len := value;
      } else if addr == TX_AT {
        Arm(value, t);
      } else if addr == TX_CTRL {
        Control(value, t, div);
      } else {
        mine := false;
      }
    }

    method Load(addr: int, t: nat) returns (mine: bool, value: int)
      requires Valid()
      modifies this
      ensures Valid()
      ensures mine == Owns(addr, false)
      ensures value == LoadValue(old(Contents()), addr, t)
      ensures Contents() == AfterLoad(old(Contents()), addr)
    {
      mine, value := true, 0;
      if addr == TX_STATUS {
        value := Flag(n > 0 && t < end[0], 1) + Flag(blind, 2) + Flag(overrun, 4);
        blind, overrun := false, false;
      } else if addr == TX_LEN {
        value := len;
      } else if addr == TX_AT {
        value := Flag(armed, 1) + Flag(late, 2);
        late := false;
      } else {
        mine := false;
      }
    }

    method BlindsAt(ts: nat) returns (b: bool)
      requires Valid()
      ensures b == Blinds(Contents(), ts)
    {
      var k := 0;
      while k < 2 && k < n
        invariant k <= 2 && k <= n
        invariant forall i | 0 <= i < k :: !(start[i] <= ts < end[i] + tsw)
      {
        if start[k] <= ts < end[k] + tsw {
          return true;
        }
        k := k + 1;
      }
      return false;
    }
  }

  function Off(tsw: nat): State {
    State(0, Span(0, 0), Span(0, 0), 0, tsw, false, false, false, false, false, false, 0, 0, false)
  }

  // --- the full history ------------------------------------------------------------------------

  /** What can happen to the transmitter: the board looks at it, or a CPU accesses it. */
  datatype Event = Look(t: nat) | Write(addr: int, value: int32, t: nat) | Read(addr: int)

  /** The device together with every transmission since power-on. */
  datatype Logged = Logged(x: State, history: seq<Span>)

  function Next(x: State, e: Event, div: nat): State
    requires x.armed ==> x.atLen > 0
  {
    match e
    case Look(t) => Fired(x, t, div)
    case Write(addr, value, t) => Stored(x, addr, value, t, div)
    case Read(addr) => AfterLoad(x, addr)
  }

  function LoggedNext(l: Logged, e: Event, div: nat): Logged
    requires l.x.armed ==> l.x.atLen > 0
  {
    Relogged(l, Next(l.x, e, div))
  }

  ghost predicate Ordered(h: seq<Span>) {
    && (forall i | 0 <= i < |h| :: h[i].start < h[i].end)
    && (forall i | 0 <= i < |h| - 1 :: h[i].end <= h[i + 1].start)
  }

  /** The two slots are the last two entries of an ordered history. */
  ghost predicate Faithful(l: Logged) {
    && (l.x.armed ==> l.x.atLen > 0)
    && l.x.n == |l.history| && Ordered(l.history)
    && (l.x.n > 0 ==> l.x.last == l.history[l.x.n - 1])
    && (l.x.n > 1 ==> l.x.prev == l.history[l.x.n - 2])
  }

  /** `y` follows `x`: either no transmission has started, or one has while none was on. */
  ghost predicate Follows(x: State, y: State) {
    && (y.armed ==> y.atLen > 0)
    && (y.n == x.n ==> y.last == x.last && y.prev == x.prev)
    && (y.n != x.n ==> y.n == x.n + 1 && y.prev == x.last && y.last.start < y.last.end
                       && (x.n > 0 ==> x.last.end <= y.last.start))
  }

  lemma StartedFollows(x: State, t: nat, len: int32, neg: bool, div: nat)
    requires len > 0 && div > 0 && !On(x, t) && (x.armed ==> x.atLen > 0)
    ensures Follows(x, Started(x, t, len, neg, div))
  {
    LastsAWhile(len, div);
  }

  lemma FireFollows(x: State, t: nat, div: nat)
    requires div > 0 && (x.armed ==> x.atLen > 0)
    ensures Follows(x, Fired(x, t, div))
  {
    if x.armed && t >= x.at && !On(x, x.at) {
      StartedFollows(x.(armed := false), x.at, x.atLen, x.atNeg, div);
    }
  }

  lemma ControlFollows(x: State, value: int32, t: nat, div: nat)
    requires div > 0 && (x.armed ==> x.atLen > 0)
    ensures Follows(x, Controlled(x, value, t, div))
  {
    var y := x.(cfgNeg := value / 2 % 2 == 1);
    if value % 2 == 1 && !On(y, t) && y.len > 0 {
      StartedFollows(y, t, y.len, y.cfgNeg, div);
    }
  }

  lemma ArmFollows(x: State, value: int32, t: nat)
    requires x.armed ==> x.atLen > 0
    ensures Follows(x, Armed(x, value, t))
  {
  }

  lemma EventFollows(x: State, e: Event, div: nat)
    requires div > 0 && (x.armed ==> x.atLen > 0)
    ensures Follows(x, Next(x, e, div))
  {
    if e.Look? {
      FireFollows(x, e.t, div);
    } else if e.Write? && e.addr == TX_CTRL {
      ControlFollows(x, e.value, e.t, div);
    } else if e.Write? && e.addr == TX_AT {
      ArmFollows(x, e.value, e.t);
    } else {
      var y := Next(x, e, div);
      assert y.n == x.n && y.last == x.last && y.prev == x.prev && y.armed == x.armed && y.atLen == x.atLen;
    }
  }

  lemma LastsAWhile(len: int, div: nat)
    requires div > 0
    ensures len > 0 ==> len * div > 0
  {
  }

  /** The device and the history after a change of the device. */
  function Relogged(l: Logged, y: State): Logged {
    Logged(y, if y.n == l.x.n then l.history else l.history + [y.last])
  }

  lemma FollowsFaithful(l: Logged, y: State)
    requires Faithful(l) && Follows(l.x, y)
    ensures Faithful(Relogged(l, y))
  {
  }

  lemma StepFaithful(l: Logged, e: Event, div: nat)
    requires Faithful(l) && div > 0
    ensures Faithful(LoggedNext(l, e, div))
  {
    EventFollows(l.x, e, div);
    FollowsFaithful(l, Next(l.x, e, div));
  }

  ghost function After(l: Logged, es: seq<Event>, div: nat): (m: Logged)
    requires Faithful(l) && div > 0
    ensures Faithful(m)
    decreases |es|
  {
    if es == [] then l
    else
      StepFaithful(l, es[0], div);
      After(LoggedNext(l, es[0], div), es[1..], div)
  }

  /** From power-on, whatever the order and the instants of accesses and boundaries, transmissions
      never overlap and each starts after the one before it. */
  lemma TransmissionsAreDisjoint(tsw: nat, es: seq<Event>, div: nat, i: nat, j: nat)
    requires div > 0
    requires i < j < |After(Logged(Off(tsw), []), es, div).history|
    ensures var h := After(Logged(Off(tsw), []), es, div).history;
      h[i].start < h[i].end <= h[j].start < h[j].end
  {
    OrderedApart(After(Logged(Off(tsw), []), es, div).history, i, j);
  }

  lemma {:induction false} OrderedApart(h: seq<Span>, i: nat, j: nat)
    requires Ordered(h) && i < j < |h|
    ensures h[i].end <= h[j].start
    decreases j - i
  {
    if i + 1 < j {
      OrderedApart(h, i + 1, j);
    }
  }

  ghost predicate BlindsInHistory(h: seq<Span>, tsw: nat, ts: nat) {
    exists i | 0 <= i < |h| :: h[i].start <= ts < h[i].end + tsw
  }

  /** The latest transmission of a history that had begun by ts. */
  ghost function LatestBegun(h: seq<Span>, ts: nat): (i: int)
    ensures -1 <= i < |h| && (i >= 0 ==> h[i].start <= ts) && forall k | i < k < |h| :: h[k].start > ts
    decreases |h|
  {
    if h == [] then -1 else if h[|h| - 1].start <= ts then |h| - 1 else LatestBegun(h[..|h| - 1], ts)
  }

  /** Only the latest transmission begun can still blind. */
  lemma HistoryIsLatest(h: seq<Span>, tsw: nat, ts: nat)
    requires Ordered(h)
    ensures var i := LatestBegun(h, ts); BlindsInHistory(h, tsw, ts) <==> i >= 0 && ts < h[i].end + tsw
  {
    var i := LatestBegun(h, ts);
    if BlindsInHistory(h, tsw, ts) {
      var k :| 0 <= k < |h| && h[k].start <= ts < h[k].end + tsw;
      if k < i {
        OrderedApart(h, k, i);
        assert h[k].end <= h[i].start < h[i].end;
      }
    }
  }

  /** Two transmissions have begun after ts, and the one before them still blinds at ts. */
  ghost predicate Forgotten(l: Logged, ts: nat) {
    && l.x.n > 1 && l.x.prev.start > ts
    && var i := LatestBegun(l.history, ts); i >= 0 && ts < l.history[i].end + l.x.tsw
  }

  /** The two slots answer as the full history does exactly when nothing that matters is forgotten. */
  lemma TwoSlotsExactly(l: Logged, ts: nat)
    requires Faithful(l)
    ensures (Blinds(l.x, ts) <==> BlindsInHistory(l.history, l.x.tsw, ts)) <==> !Forgotten(l, ts)
  {
    var h, n := l.history, l.x.n;
    HistoryIsLatest(h, l.x.tsw, ts);
    if n > 1 {
      OrderedApart(h, n - 2, n - 1);
    }
    var i := LatestBegun(h, ts);
    if n > 0 && !(n > 1 && l.x.prev.start > ts) && i >= 0 {
      assert i + 2 >= n;
    }
  }

  /** In particular when at most one transmission began after the sample. */
  lemma TwoSlotsSuffice(l: Logged, ts: nat)
    requires Faithful(l)
    requires l.x.n > 1 ==> l.x.prev.start <= ts
    ensures Blinds(l.x, ts) <==> BlindsInHistory(l.history, l.x.tsw, ts)
  {
    TwoSlotsExactly(l, ts);
  }

  // --- how two starts can follow a sample ------------------------------------------------------

  lemma {:induction false} AfterSnoc(l: Logged, es: seq<Event>, e: Event, div: nat)
    requires Faithful(l) && div > 0
    ensures After(l, es + [e], div) == LoggedNext(After(l, es, div), e, div)
    decreases |es|
  {
    if es == [] {
      StepFaithful(l, e, div);
      assert ([] + [e])[1..] == [] && ([] + [e])[0] == e;
    } else {
      StepFaithful(l, es[0], div);
      assert (es + [e])[1..] == es[1..] + [e];
      AfterSnoc(LoggedNext(l, es[0], div), es[1..], e, div);
    }
  }

  /** From power-on, with a switching time of 1000 and one tick a cycle. */
  ghost function Powered(es: seq<Event>): (l: Logged)
    ensures Faithful(l)
  {
    After(Logged(Off(1000), []), es, 1)
  }

  lemma OneMore(es: seq<Event>, e: Event, l: Logged)
    requires Powered(es) == l
    ensures Powered(es + [e]) == LoggedNext(l, e, 1)
  {
    AfterSnoc(Logged(Off(1000), []), es, e, 1);
  }

  lemma ArmedTo(x: State, value: int32, t: nat)
    requires 0 <= t < value && x.len > 0
    ensures Armed(x, value, t) == x.(at := value, atLen := x.len, atNeg := x.cfgNeg, armed := true)
  {
    ArmedExactly(x, value, t);
  }

  /** TX_LEN stored at 4, a start at 8. */
  function Begin(len: int32): seq<Event> { [Write(TX_LEN, len, 4), Write(TX_CTRL, 1, 8)] }

  function Begun(len: int32): Logged
    requires len > 0
  {
    var x := Off(1000).(len := len, last := Span(8, 8 + len), n := 1);
    Logged(x, [x.last])
  }

  lemma BeginIsBegun(len: int32)
    requires len > 0
    ensures Powered(Begin(len)) == Begun(len)
  {
    OneMore([], Write(TX_LEN, len, 4), Logged(Off(1000), []));
    assert [] + [Write(TX_LEN, len, 4)] == [Write(TX_LEN, len, 4)];
    var l := Logged(Off(1000).(len := len), []);
    OneMore([Write(TX_LEN, len, 4)], Write(TX_CTRL, 1, 8), l);
    assert [Write(TX_LEN, len, 4)] + [Write(TX_CTRL, 1, 8)] == Begin(len);
    assert LoggedNext(l, Write(TX_CTRL, 1, 8), 1).history == [Span(8, 8 + len)];
  }

  /** A second store at 12, arming `at`. */
  lemma BeginThenArm(len: int32, at: int32)
    requires len > 0 && at > 12
    ensures var (l, b) := (Powered(Begin(len) + [Write(TX_AT, at, 12)]), Begun(len));
      l == Logged(b.x.(at := at, atLen := len, armed := true), b.history)
  {
    BeginIsBegun(len);
    OneMore(Begin(len), Write(TX_AT, at, 12), Begun(len));
    ArmedTo(Begun(len).x, at, 12);
  }

  /** Two starts after the sample can be one too many, and one store can bring them. A CPU storing every
      four cycles arms 14 and then starts: at 16 its store finds the armed one, a tick long, over. The
      sample of 13, taken at the boundary at 16, was in the dark of the first transmission. */
  lemma TwoStartsTooMany()
    ensures Forgotten(Powered(Begin(1) + [Write(TX_AT, 14, 12)] + [Look(16)] + [Write(TX_CTRL, 1, 16)]), 13)
  {
    var es := Begin(1) + [Write(TX_AT, 14, 12)];
    BeginThenArm(1, 14);
    var l := Powered(es);
    OneMore(es, Look(16), l);
    var m := LoggedNext(l, Look(16), 1);
    assert m.history == [Span(8, 9), Span(14, 15)] && m.x.last == Span(14, 15) && m.x.n == 2 && m.x.len == 1;
    OneMore(es + [Look(16)], Write(TX_CTRL, 1, 16), m);
    Third(m, Write(TX_CTRL, 1, 16), Span(16, 17), 13);
  }

  /** Two CPUs bring them too: their stores at 104 and 105 both come before the boundary at 104, which
      takes the sample of 103. */
  lemma TwoCpusTooMany()
    ensures Forgotten(Powered(Begin(1) + [Write(TX_CTRL, 1, 104)] + [Write(TX_CTRL, 1, 105)]), 103)
  {
    BeginIsBegun(1);
    OneMore(Begin(1), Write(TX_CTRL, 1, 104), Begun(1));
    var m := LoggedNext(Begun(1), Write(TX_CTRL, 1, 104), 1);
    assert m.history == [Span(8, 9), Span(104, 105)];
    OneMore(Begin(1) + [Write(TX_CTRL, 1, 104)], Write(TX_CTRL, 1, 105), m);
    Third(m, Write(TX_CTRL, 1, 105), Span(105, 106), 103);
  }

  /** And so does a program whose last instruction is the store, even with transmissions of four cycles:
      the boundary at 16 does not come, and the next one, of the other CPU at 100, finds the armed start
      of 60 due as well. */
  lemma LastStoreTooMany()
    ensures Forgotten(Powered(Begin(4) + [Write(TX_AT, 60, 12)] + [Write(TX_CTRL, 1, 16)] + [Look(100)]), 13)
  {
    var es := Begin(4) + [Write(TX_AT, 60, 12)];
    BeginThenArm(4, 60);
    var l := Powered(es);
    OneMore(es, Write(TX_CTRL, 1, 16), l);
    var m := LoggedNext(l, Write(TX_CTRL, 1, 16), 1);
    assert m.history == [Span(8, 12), Span(16, 20)] && m.x.armed && m.x.at == 60 && m.x.atLen == 4 && m.x.n == 2;
    OneMore(es + [Write(TX_CTRL, 1, 16)], Look(100), m);
    Third(m, Look(100), Span(60, 64), 13);
  }

  /** After a third start, both slots are past the sample, and the first transmission is forgotten. */
  lemma Third(l: Logged, e: Event, third: Span, ts: nat)
    requires Faithful(l) && |l.history| == 2 && l.x.tsw == 1000
    requires var y := Next(l.x, e, 1); y.n == 3 && y.last == third && y.prev == l.x.last && y.tsw == 1000
    requires l.history[0].start <= ts < l.history[1].start && ts < third.start && ts < l.history[0].end + 1000
    ensures Forgotten(LoggedNext(l, e, 1), ts)
  {
    var m := LoggedNext(l, e, 1);
    assert m.history == [l.history[0], l.history[1], third];
    var i := LatestBegun(m.history, ts);
    assert i < 1 && i >= 0;
  }

  /** TX_AT takes the low 32 bits of an instant: within 2^31 ticks of now it arms exactly the
      instants still to come, and arms them exactly. */
  lemma ArmedExactly(x: State, instant: nat, t: nat)
    requires -0x8000_0000 <= instant - t < 0x8000_0000 && x.len > 0
    ensures var y := Armed(x, Wrap32(instant), t);
      if instant > t then y.armed && y.at == instant && y.atLen == x.len else !y.armed && y.late
  {
    WrappedGapIsExact(instant, t);
    assert Wrap32(Wrap32(instant)) == Wrap32(instant);
  }
}
