/**
 Control commands: a command is cut into fragments, the fragments go through a queue, and each is
 posted through the soft HPQM.  That is a ring of slots; a slot holds the address of a command
 buffer, which is free for the host or busy until the RPU has read it.
 */
module CtrlPath {
  import opened Basics
  import CmdRing

  type Msg = seq<byte>

  // ------------------------------------------------------------ fragments

  function Concat(q: seq<Msg>): Msg {
    if q == [] then [] else Concat(q[..|q| - 1]) + q[|q| - 1]
  }

  /** The pieces of a command that is too long for one message. */
  function Pieces(cmd: Msg, max: nat): seq<Msg>
    requires 0 < max
    decreases |cmd|
  {
    if cmd == [] then []
    else if |cmd| <= max then [cmd]
    else [cmd[..max]] + Pieces(cmd[max..], max)
  }

  /** What hal_rpu_cmd_queue puts in the queue; an empty command is one empty message. */
  function Fragments(cmd: Msg, max: nat): seq<Msg>
    requires 0 < max
  {
    if |cmd| > max then Pieces(cmd, max) else [cmd]
  }

  lemma {:induction false} ConcatAppend(a: seq<Msg>, b: seq<Msg>)
    ensures Concat(a + b) == Concat(a) + Concat(b)
  {
    if b == [] {
      assert a + b == a;
    } else {
      assert (a + b)[..|a + b| - 1] == a + b[..|b| - 1];
      ConcatAppend(a, b[..|b| - 1]);
    }
  }

  lemma ConcatOne(m: Msg)
    ensures Concat([m]) == m
  {
    assert [m][..0] == [];
  }

  lemma {:induction false} PiecesAre(cmd: Msg, max: nat)
    requires 0 < max
    ensures Concat(Pieces(cmd, max)) == cmd
    ensures forall i | 0 <= i < |Pieces(cmd, max)| :: 0 < |Pieces(cmd, max)[i]| <= max
    ensures forall i | 0 <= i < |Pieces(cmd, max)| - 1 :: |Pieces(cmd, max)[i]| == max
    decreases |cmd|
  {
    if 0 < |cmd| <= max {
      ConcatOne(cmd);
    } else if |cmd| > max {
      PiecesAre(cmd[max..], max);
      ConcatAppend([cmd[..max]], Pieces(cmd[max..], max));
      ConcatOne(cmd[..max]);
      assert cmd[..max] + cmd[max..] == cmd;
    }
  }

  lemma {:induction false} PiecesStep(cmd: Msg, size: nat, max: nat)
    requires 0 < max && cmd != [] && size == if |cmd| > max then max else |cmd|
    ensures Pieces(cmd, max) == [cmd[..size]] + Pieces(cmd[size..], max)
  {
    if |cmd| <= max { assert cmd[..size] == cmd && cmd[size..] == []; }
  }

  /** The fragments of a command are short enough, none is empty, all but the last are full, and together they are the command. */
  lemma FragmentsAre(cmd: Msg, max: nat)
    requires 0 < max
    ensures Concat(Fragments(cmd, max)) == cmd
    ensures forall i | 0 <= i < |Fragments(cmd, max)| :: |Fragments(cmd, max)[i]| <= max
    ensures cmd != [] ==> forall i | 0 <= i < |Fragments(cmd, max)| :: Fragments(cmd, max)[i] != []
    ensures forall i | 0 <= i < |Fragments(cmd, max)| - 1 :: |Fragments(cmd, max)[i]| == max
  {
    PiecesAre(cmd, max);
    ConcatOne(cmd);
  }

  /** The messages that are posted when those are dropped whose wait timed out. */
  function Kept(q: seq<Msg>, ready: seq<bool>): seq<Msg>
    requires |q| == |ready|
  {
    if q == [] then []
    else Kept(q[..|q| - 1], ready[..|q| - 1]) + if ready[|q| - 1] then [q[|q| - 1]] else []
  }

  function Size(q: seq<Msg>): nat { |Concat(q)| }

  /** Each message is kept or dropped by its own wait, and the order stays. */
  lemma {:induction false} KeptAppend(a: seq<Msg>, ra: seq<bool>, b: seq<Msg>, rb: seq<bool>)
    requires |a| == |ra| && |b| == |rb|
    ensures Kept(a + b, ra + rb) == Kept(a, ra) + Kept(b, rb)
    decreases |b|
  {
    if b == [] {
      assert a + b == a && ra + rb == ra;
    } else {
      var n := |b| - 1;
      KeptAppend(a, ra, b[..n], rb[..n]);
      assert (a + b)[..|a + b| - 1] == a + b[..n] && (ra + rb)[..|ra + rb| - 1] == ra + rb[..n];
    }
  }

  lemma KeptOne(m: Msg, ok: bool)
    ensures Kept([m], [ok]) == if ok then [m] else []
  {
    assert [m][..0] == [] && [ok][..0] == [];
  }

  lemma SizeAppend(q: seq<Msg>, m: Msg)
    ensures Size(q + [m]) == Size(q) + |m|
  {
    assert (q + [m])[..|q|] == q;
  }

  lemma {:induction false} KeptSize(q: seq<Msg>, ready: seq<bool>)
    requires |q| == |ready| && forall i | 0 <= i < |q| :: q[i] != []
    ensures Size(Kept(q, ready)) <= Size(q)
    ensures Size(Kept(q, ready)) == Size(q) ==> forall i | 0 <= i < |ready| :: ready[i]
    decreases |q|
  {
    if q != [] {
      var n := |q| - 1;
      KeptSize(q[..n], ready[..n]);
      assert q == q[..n] + [q[n]];
      SizeAppend(q[..n], q[n]);
      if ready[n] {
        SizeAppend(Kept(q[..n], ready[..n]), q[n]);
      } else {
        assert Kept(q, ready) == Kept(q[..n], ready[..n]);
      }
    }
  }

  lemma {:induction false} KeptAll(q: seq<Msg>, ready: seq<bool>)
    requires |q| == |ready| && forall i | 0 <= i < |ready| :: ready[i]
    ensures Kept(q, ready) == q
    decreases |q|
  {
    if q != [] {
      var n := |q| - 1;
      KeptAll(q[..n], ready[..n]);
      assert q == q[..n] + [q[n]];
    }
  }

  // ---------------------------------------------------------------- waits

  /** Of `inFlight` unread messages, those left after the RPU has read up to `turn` of them. */
  function After(inFlight: nat, turn: nat): nat { if turn <= inFlight then inFlight - turn else 0 }

  /** The messages in flight after one wait and, when it finds a free slot, one post. */
  function AfterWait(inFlight: nat, slots: nat, turn: nat): nat {
    After(inFlight, turn) + if After(inFlight, turn) < slots then 1 else 0
  }

  /** The messages in flight after a wait for each of `turns`, the reads by the RPU during the waits. */
  function Unread(inFlight: nat, slots: nat, turns: seq<nat>): (n: nat)
    requires inFlight <= slots
    ensures n <= slots
  {
    if turns == [] then inFlight
    else AfterWait(Unread(inFlight, slots, turns[..|turns| - 1]), slots, turns[|turns| - 1])
  }

  /** Which of the waits find a free slot. */
  function Ready(inFlight: nat, slots: nat, turns: seq<nat>): (ready: seq<bool>)
    requires inFlight <= slots
    ensures |ready| == |turns|
  {
    if turns == [] then []
    else
      var front := turns[..|turns| - 1];
      Ready(inFlight, slots, front) + [After(Unread(inFlight, slots, front), turns[|turns| - 1]) < slots]
  }

  /** A wait times out exactly when the ring is full and the RPU reads nothing. */
  lemma {:induction false} ReadyAt(inFlight: nat, slots: nat, turns: seq<nat>, k: nat)
    requires inFlight <= slots && 0 < slots && k < |turns|
    ensures Ready(inFlight, slots, turns)[k] <==> turns[k] >= 1 || Unread(inFlight, slots, turns[..k]) < slots
    decreases |turns|
  {
    var front := turns[..|turns| - 1];
    if k < |front| {
      ReadyAt(inFlight, slots, front, k);
      assert front[..k] == turns[..k];
    }
  }

  /**
   The RPU gets the whole command exactly when, at the wait for each fragment, the ring is not full or
   the RPU reads a message.
   */
  lemma {:induction false} DeliveredWholeIff(cmd: Msg, max: nat, inFlight: nat, slots: nat, turns: seq<nat>)
    requires 0 < max && cmd != [] && inFlight <= slots && 0 < slots && |turns| == |Fragments(cmd, max)|
    ensures Concat(Kept(Fragments(cmd, max), Ready(inFlight, slots, turns))) == cmd <==>
              forall k | 0 <= k < |turns| :: turns[k] >= 1 || Unread(inFlight, slots, turns[..k]) < slots
  {
    var ready := Ready(inFlight, slots, turns);
    FragmentsAre(cmd, max);
    KeptSize(Fragments(cmd, max), ready);
    if forall k | 0 <= k < |ready| :: ready[k] { KeptAll(Fragments(cmd, max), ready); }
    forall k | 0 <= k < |turns|
      ensures ready[k] <==> turns[k] >= 1 || Unread(inFlight, slots, turns[..k]) < slots
    {
      ReadyAt(inFlight, slots, turns, k);
    }
  }

  lemma {:induction false} UnreadNoReads(inFlight: nat, slots: nat, turns: seq<nat>)
    requires inFlight <= slots && forall k | 0 <= k < |turns| :: turns[k] == 0
    ensures Unread(inFlight, slots, turns) == if inFlight + |turns| <= slots then inFlight + |turns| else slots
  {
    if turns != [] { UnreadNoReads(inFlight, slots, turns[..|turns| - 1]); }
  }

  lemma NoReadsReady(inFlight: nat, slots: nat, turns: seq<nat>)
    requires inFlight <= slots && turns != [] && forall k | 0 <= k < |turns| :: turns[k] == 0
    ensures (forall k | 0 <= k < |turns| :: turns[k] >= 1 || Unread(inFlight, slots, turns[..k]) < slots) <==>
              |turns| <= slots - inFlight
  {
    if |turns| <= slots - inFlight {
      forall k | 0 <= k < |turns| ensures Unread(inFlight, slots, turns[..k]) < slots {
        UnreadNoReads(inFlight, slots, turns[..k]);
      }
    } else {
      var last := |turns| - 1;
      UnreadNoReads(inFlight, slots, turns[..last]);
      assert turns[last] == 0;
    }
  }

  /** While the RPU reads nothing, the whole command arrives exactly when each fragment finds a free slot left. */
  lemma {:induction false} NoReadsWholeIff(cmd: Msg, max: nat, inFlight: nat, slots: nat, turns: seq<nat>)
    requires 0 < max && cmd != [] && inFlight <= slots && 0 < slots && |turns| == |Fragments(cmd, max)|
    requires forall k | 0 <= k < |turns| :: turns[k] == 0
    ensures Concat(Kept(Fragments(cmd, max), Ready(inFlight, slots, turns))) == cmd <==>
              |Fragments(cmd, max)| <= slots - inFlight
  {
    FragmentsSome(cmd, max);
    DeliveredWholeIff(cmd, max, inFlight, slots, turns);
    NoReadsReady(inFlight, slots, turns);
  }

  lemma FragmentsSome(cmd: Msg, max: nat)
    requires 0 < max
    ensures Fragments(cmd, max) != []
  {
  }

  // ----------------------------------------------------------------- the ring

  /** `free` and `busy`: the words of each slot; the first `|received|` messages posted have been read. */
  datatype Ring = Ring(free: seq<nat>, busy: seq<nat>, mem: map<nat, Msg>, posted: seq<Msg>, received: seq<Msg>)

  ghost predicate Sized(n: nat, r: Ring) {
    && 0 < n
    && |r.free| == |r.busy| == n
    && |r.received| <= |r.posted| <= |r.received| + n
  }

  /** Message `i` has been posted and not read: its slot is busy and its buffer holds it. */
  ghost predicate InFlight(n: nat, r: Ring, i: nat)
    requires Sized(n, r) && i < |r.posted|
  {
    var addr := r.busy[i % n];
    r.free[i % n] == 0 && addr != 0 && addr in r.mem && r.mem[addr] == r.posted[i]
  }

  /** The slot for message `i` is free. */
  ghost predicate Open(n: nat, r: Ring, i: nat)
    requires Sized(n, r)
  {
    r.free[i % n] != 0 && r.busy[i % n] == 0
  }

  ghost function Addr(n: nat, r: Ring, k: nat): nat
    requires Sized(n, r) && k < n
  {
    if r.free[k] != 0 then r.free[k] else r.busy[k]
  }

  /** Buffers of `max` bytes at `a` and `b` have no byte in common. */
  predicate Apart(max: nat, a: nat, b: nat) { a + max <= b || b + max <= a }

  /** Unread messages are in their slots and fit, the other slots are free, and the buffers of two slots do not overlap. */
  ghost predicate RingOk(n: nat, max: nat, r: Ring) {
    && Sized(n, r) && 0 < max
    && (forall i | |r.received| <= i < |r.posted| :: |r.posted[i]| <= max)
    && r.received == r.posted[..|r.received|]
    && (forall i | |r.received| <= i < |r.posted| :: InFlight(n, r, i))
    && (forall i | |r.posted| <= i < |r.received| + n :: Open(n, r, i))
    && (forall k, l | 0 <= k < n && 0 <= l < n && k != l :: Apart(max, Addr(n, r, k), Addr(n, r, l)))
  }

  /** Buffer memory after a message has been written at `addr`: what its bytes fall on is damaged. */
  function Written(mem: map<nat, Msg>, addr: nat, msg: Msg): map<nat, Msg> {
    (map a | a in mem && !CmdRing.Overlap(a, |mem[a]|, addr, |msg|) :: mem[a])[addr := msg]
  }

  ghost function Post(r: Ring, h: nat, msg: Msg): Ring
    requires h < |r.free| == |r.busy|
  {
    r.(free := r.free[h := 0], busy := r.busy[h := r.free[h]], mem := Written(r.mem, r.free[h], msg),
       posted := r.posted + [msg])
  }

  ghost function Take(r: Ring, h: nat): Ring
    requires h < |r.free| == |r.busy| && |r.received| < |r.posted|
  {
    r.(free := r.free[h := r.busy[h]], busy := r.busy[h := 0], received := r.received + [r.posted[|r.received|]])
  }

  lemma SameSlot(i: nat, m: nat)
    requires 0 < m
    ensures (i + m) % m == i % m
  {
    var q, k := i / m, i % m;
    assert i == m * q + k && i + m == m * (q + 1) + k by { assert m * (q + 1) == m * q + m; }
    CmdRing.ModIs(m, q + 1, k);
  }

  /** The next slot is free exactly when the ring is not full of messages that the RPU has yet to read. */
  lemma NextOpenIff(n: nat, max: nat, r: Ring)
    requires RingOk(n, max, r)
    ensures r.free[|r.posted| % n] != 0 <==> |r.posted| < |r.received| + n
  {
    if |r.posted| == |r.received| + n {
      SameSlot(|r.received|, n);
      assert InFlight(n, r, |r.received|);
    } else {
      assert Open(n, r, |r.posted|);
    }
  }

  /** The RPU finds a message in its next slot exactly when it has not read them all. */
  lemma PendingIff(n: nat, max: nat, r: Ring)
    requires RingOk(n, max, r)
    ensures r.busy[|r.received| % n] != 0 <==> |r.received| < |r.posted|
  {
    if |r.received| < |r.posted| { assert InFlight(n, r, |r.received|); } else { assert Open(n, r, |r.received|); }
  }

  ghost function Start(buffers: seq<nat>): Ring { Ring(buffers, seq(|buffers|, _ => 0), map[], [], []) }

  lemma StartOpen(buffers: seq<nat>, i: nat)
    requires i < |buffers| && buffers[i] != 0
    ensures Open(|buffers|, Start(buffers), i) && Addr(|buffers|, Start(buffers), i) == buffers[i]
  {
    CmdRing.ModIs(|buffers|, 0, i);
    assert |buffers| * 0 + i == i;
  }

  lemma StartOk(max: nat, buffers: seq<nat>)
    requires 0 < max && buffers != [] && forall k | 0 <= k < |buffers| :: buffers[k] != 0
    requires forall k, l | 0 <= k < l < |buffers| :: Apart(max, buffers[k], buffers[l])
    ensures RingOk(|buffers|, max, Start(buffers))
  {
    var n, r := |buffers|, Start(buffers);
    forall i: nat | i < n ensures Open(n, r, i) && Addr(n, r, i) == buffers[i] { StartOpen(buffers, i); }
    forall k, l | 0 <= k < n && 0 <= l < n && k != l ensures Apart(max, Addr(n, r, k), Addr(n, r, l)) {
      StartOpen(buffers, k);
      StartOpen(buffers, l);
      assert if k < l then Apart(max, buffers[k], buffers[l]) else Apart(max, buffers[l], buffers[k]);
    }
  }

  lemma PostInFlight(n: nat, max: nat, r: Ring, msg: Msg, i: nat)
    requires RingOk(n, max, r) && |r.posted| < |r.received| + n && |r.received| <= i <= |r.posted| && |msg| <= max
    ensures InFlight(n, Post(r, |r.posted| % n, msg), i)
  {
    var h := |r.posted| % n;
    assert Open(n, r, |r.posted|);
    if i < |r.posted| {
      CmdRing.SlotsDiffer(n, i, |r.posted|);
      assert InFlight(n, r, i);
      assert Apart(max, Addr(n, r, i % n), Addr(n, r, h));
    }
  }

  lemma PostOpen(n: nat, max: nat, r: Ring, msg: Msg, i: nat)
    requires RingOk(n, max, r) && |r.posted| < i < |r.received| + n
    ensures Open(n, Post(r, |r.posted| % n, msg), i)
  {
    assert Open(n, r, i);
    CmdRing.SlotsDiffer(n, |r.posted|, i);
  }

  lemma PostOk(n: nat, max: nat, r: Ring, msg: Msg)
    requires RingOk(n, max, r) && |r.posted| < |r.received| + n && |msg| <= max
    ensures RingOk(n, max, Post(r, |r.posted| % n, msg))
  {
    var h := |r.posted| % n;
    var r' := Post(r, h, msg);
    assert Open(n, r, |r.posted|);
    assert r'.posted[..|r.received|] == r.posted[..|r.received|];
    forall i | |r'.received| <= i < |r'.posted| ensures InFlight(n, r', i) { PostInFlight(n, max, r, msg, i); }
    forall i | |r'.posted| <= i < |r'.received| + n ensures Open(n, r', i) { PostOpen(n, max, r, msg, i); }
    forall k: nat | k < n ensures Addr(n, r', k) == Addr(n, r, k) {}
  }

  lemma TakeOpen(n: nat, max: nat, r: Ring, i: nat)
    requires RingOk(n, max, r) && |r.received| < |r.posted| <= i <= |r.received| + n
    ensures Open(n, Take(r, |r.received| % n), i)
  {
    assert InFlight(n, r, |r.received|);
    if i < |r.received| + n {
      assert Open(n, r, i);
      CmdRing.SlotsDiffer(n, |r.received|, i);
    } else {
      SameSlot(|r.received|, n);
    }
  }

  lemma TakeInFlight(n: nat, max: nat, r: Ring, i: nat)
    requires RingOk(n, max, r) && |r.received| < i < |r.posted|
    ensures InFlight(n, Take(r, |r.received| % n), i)
  {
    assert InFlight(n, r, i);
    CmdRing.SlotsDiffer(n, |r.received|, i);
  }

  lemma TakeOk(n: nat, max: nat, r: Ring)
    requires RingOk(n, max, r) && |r.received| < |r.posted|
    ensures RingOk(n, max, Take(r, |r.received| % n))
  {
    var h := |r.received| % n;
    var r' := Take(r, h);
    assert InFlight(n, r, |r.received|);
    assert r.posted[..|r.received| + 1] == r.received + [r.posted[|r.received|]];
    forall i | |r'.received| <= i < |r'.posted| ensures InFlight(n, r', i) { TakeInFlight(n, max, r, i); }
    forall i | |r'.posted| <= i < |r'.received| + n ensures Open(n, r', i) { TakeOpen(n, max, r, i); }
    forall k: nat | k < n ensures Addr(n, r', k) == Addr(n, r, k) {}
  }

  // ---------------------------------------------------------------- the queue

  /** Every message fits in a buffer. */
  ghost predicate Short(max: nat, q: seq<Msg>) { forall i | 0 <= i < |q| :: |q[i]| <= max }

  lemma FragmentsShort(cmd: Msg, max: nat)
    requires 0 < max
    ensures Short(max, Fragments(cmd, max)) && [] + Fragments(cmd, max) == Fragments(cmd, max)
  {
    FragmentsAre(cmd, max);
  }

  /** What a drained queue leaves: which messages were ready, what has been posted, how much is in flight. */
  ghost predicate Drained(q: seq<Msg>, turns: seq<nat>, slots: nat, before: nat, posted0: seq<Msg>,
                          ready: seq<bool>, posted: seq<Msg>, n: nat) {
    && |q| == |turns| && before <= slots
    && ready == Ready(before, slots, turns)
    && posted == posted0 + Kept(q, ready)
    && n == Unread(before, slots, turns)
  }

  /** The queue `q` has been drained as far as message `k`. */
  ghost predicate Progress(q: seq<Msg>, turns: seq<nat>, slots: nat, before: nat, posted0: seq<Msg>,
                           k: nat, rest: seq<Msg>, ready: seq<bool>, posted: seq<Msg>, n: nat) {
    && k <= |q| == |turns| && rest == q[k..]
    && Drained(q[..k], turns[..k], slots, before, posted0, ready, posted, n)
  }

  lemma ProgressStart(q: seq<Msg>, turns: seq<nat>, slots: nat, before: nat, posted0: seq<Msg>)
    requires |q| == |turns| && before <= slots
    ensures Progress(q, turns, slots, before, posted0, 0, q, [], posted0, before)
  {
    assert posted0 + Kept([], []) == posted0;
  }

  lemma {:induction false} WaitNext(before: nat, slots: nat, turns: seq<nat>, k: nat)
    requires before <= slots && k < |turns|
    ensures var n := Unread(before, slots, turns[..k]);
            && Unread(before, slots, turns[..k + 1]) == AfterWait(n, slots, turns[k])
            && Ready(before, slots, turns[..k + 1]) == Ready(before, slots, turns[..k]) + [After(n, turns[k]) < slots]
  {
    assert turns[..k + 1][..k] == turns[..k];
  }

  lemma {:induction false} KeptNext(q: seq<Msg>, ready: seq<bool>, k: nat, ok: bool)
    requires |ready| == k < |q|
    ensures Kept(q[..k + 1], ready + [ok]) == Kept(q[..k], ready) + if ok then [q[k]] else []
  {
    assert q[..k + 1] == q[..k] + [q[k]];
    KeptAppend(q[..k], ready, [q[k]], [ok]);
    KeptOne(q[k], ok);
  }

  lemma Regroup(a: seq<Msg>, b: seq<Msg>, c: seq<Msg>)
    ensures a + (b + c) == a + b + c && a + b + [] == a + b
  {
  }

  lemma ProgressNext(q: seq<Msg>, turns: seq<nat>, slots: nat, before: nat, posted0: seq<Msg>, k: nat,
                     rest: seq<Msg>, ready: seq<bool>, posted: seq<Msg>, n: nat, ok: bool, posted': seq<Msg>, n': nat)
    requires Progress(q, turns, slots, before, posted0, k, rest, ready, posted, n) && rest != []
    requires ok <==> After(n, turns[k]) < slots
    requires posted' == if ok then posted + [rest[0]] else posted
    requires n' == AfterWait(n, slots, turns[k])
    ensures Progress(q, turns, slots, before, posted0, k + 1, rest[1..], ready + [ok], posted', n')
  {
    WaitNext(before, slots, turns, k);
    KeptNext(q, ready, k, ok);
    Regroup(posted0, Kept(q[..k], ready), if ok then [q[k]] else []);
  }

  lemma ProgressDone(q: seq<Msg>, turns: seq<nat>, slots: nat, before: nat, posted0: seq<Msg>, k: nat,
                     rest: seq<Msg>, ready: seq<bool>, posted: seq<Msg>, n: nat)
    requires Progress(q, turns, slots, before, posted0, k, rest, ready, posted, n) && rest == []
    ensures Drained(q, turns, slots, before, posted0, ready, posted, n)
  {
    assert q[..k] == q && turns[..k] == turns;
  }

  class CtrlPath {
    const maxCmdSize: nat
    const slots: nat                // HOST_RPU_CMD_BUFFERS
    var cmdQ: seq<Msg>
    var cmdFreeBuffs: seq<nat>
    var cmdBusyBuffs: seq<nat>
    var hostCmdFreeIndex: nat
    var rpuIndex: nat
    var mem: map<nat, Msg>
    ghost var posted: seq<Msg>
    ghost var received: seq<Msg>

    ghost function View(): Ring
      reads this`cmdFreeBuffs, this`cmdBusyBuffs, this`mem, this`posted, this`received
    {
      Ring(cmdFreeBuffs, cmdBusyBuffs, mem, posted, received)
    }

    ghost predicate Valid()
      reads this`cmdFreeBuffs, this`cmdBusyBuffs, this`hostCmdFreeIndex, this`rpuIndex, this`mem, this`posted, this`received
    {
      && 0 < maxCmdSize
      && RingOk(slots, maxCmdSize, View())
      && hostCmdFreeIndex == |posted| % slots && rpuIndex == |received| % slots
    }

    /** The messages posted and not read. */
    ghost function Unanswered(): (n: nat)
      requires Valid()
      reads this`cmdFreeBuffs, this`cmdBusyBuffs, this`hostCmdFreeIndex, this`rpuIndex, this`mem, this`posted, this`received
      ensures n <= slots
    {
      |posted| - |received|
    }

    /** At start-up the RPU hands out one command buffer for every slot, each with room for a message. */
    constructor (maxCmdSize: nat, buffers: seq<nat>)
      requires 0 < maxCmdSize && buffers != []
      requires forall k | 0 <= k < |buffers| :: buffers[k] != 0
      requires forall k, l | 0 <= k < l < |buffers| :: Apart(maxCmdSize, buffers[k], buffers[l])
      ensures Valid() && cmdQ == [] && posted == received == []
      ensures this.maxCmdSize == maxCmdSize && slots == |buffers|
    {
      this.maxCmdSize, slots := maxCmdSize, |buffers|;
      cmdQ, mem, posted, received := [], map[], [], [];
      cmdFreeBuffs, cmdBusyBuffs := buffers, seq(|buffers|, _ => 0);
      hostCmdFreeIndex, rpuIndex := 0, 0;
      new;
      StartOk(maxCmdSize, buffers);
      CmdRing.ModIs(slots, 0, 0);
      assert View() == Start(buffers);
    }

    /** hal_rpu_msg_write: take the free buffer of the next slot, fill it, and post it. */
    method MsgWrite(msg: Msg) returns (ok: bool)
      requires Valid() && |msg| <= maxCmdSize
      modifies this`cmdFreeBuffs, this`cmdBusyBuffs, this`hostCmdFreeIndex, this`mem, this`posted
      ensures Valid()
      ensures ok <==> |old(posted)| < |received| + slots
      ensures posted == if ok then old(posted) + [msg] else old(posted)
    {
      ghost var r := View();
      NextOpenIff(slots, maxCmdSize, r);
      var addr := cmdFreeBuffs[hostCmdFreeIndex];
      if addr == 0 {
        return false;
      }
      PostOk(slots, maxCmdSize, r, msg);
      CmdRing.WrapMod(slots, |posted|);
      cmdFreeBuffs := cmdFreeBuffs[hostCmdFreeIndex := 0];
      mem := Written(mem, addr, msg);
      cmdBusyBuffs := cmdBusyBuffs[hostCmdFreeIndex := addr];
      hostCmdFreeIndex := CmdRing.Wrap(slots, hostCmdFreeIndex);
      posted := posted + [msg];
      assert View() == Post(r, |r.posted| % slots, msg);
      ok := true;
    }

    /** The RPU's half: read the next message and give its buffer back in the same slot. */
    method RpuReads() returns (msg: Msg)
      requires Valid() && |received| < |posted|
      modifies this`cmdFreeBuffs, this`cmdBusyBuffs, this`rpuIndex, this`received
      ensures Valid() && msg == posted[|old(received)|] && received == old(received) + [msg]
    {
      ghost var r := View();
      assert InFlight(slots, r, |received|);
      TakeOk(slots, maxCmdSize, r);
      CmdRing.WrapMod(slots, |received|);
      var addr := cmdBusyBuffs[rpuIndex];
      msg := mem[addr];
      cmdBusyBuffs := cmdBusyBuffs[rpuIndex := 0];
      cmdFreeBuffs := cmdFreeBuffs[rpuIndex := addr];
      rpuIndex := CmdRing.Wrap(slots, rpuIndex);
      received := received + [msg];
      assert View() == Take(r, |r.received| % slots);
    }

    /** hal_rpu_ready_wait, during which the RPU reads up to `turns` messages. */
    method ReadyWait(turns: nat) returns (ready: bool)
      requires Valid()
      modifies this`cmdFreeBuffs, this`cmdBusyBuffs, this`rpuIndex, this`received
      ensures Valid() && old(received) <= received
      ensures Unanswered() == After(old(Unanswered()), turns)
      ensures Unanswered() == if old(Unanswered()) <= turns then 0 else old(Unanswered()) - turns
      ensures ready <==> Unanswered() < slots
    {
      var n := 0;
      while n < turns && RpuPending()
        invariant n <= turns && Valid() && old(received) <= received && |received| == |old(received)| + n
      {
        var msg := RpuReads();
        n := n + 1;
      }
      NextOpenIff(slots, maxCmdSize, View());
      ready := cmdFreeBuffs[hostCmdFreeIndex] != 0;
    }

    /** The RPU sees a message in its next slot. */
    predicate RpuPending()
      requires Valid()
      reads this`cmdFreeBuffs, this`cmdBusyBuffs, this`hostCmdFreeIndex, this`rpuIndex, this`mem, this`posted, this`received
      ensures RpuPending() <==> |received| < |posted|
    {
      PendingIff(slots, maxCmdSize, View());
      cmdBusyBuffs[rpuIndex] != 0
    }

    /** The first message of the queue: wait for a slot, and post the message or drop it. */
    method SendFirst(turns: nat) returns (ok: bool)
      requires Valid() && cmdQ != [] && Short(maxCmdSize, cmdQ)
      modifies this
      ensures Valid() && cmdQ == old(cmdQ)[1..] && Short(maxCmdSize, cmdQ)
      ensures ok <==> After(old(Unanswered()), turns) < slots
      ensures posted == if ok then old(posted) + [old(cmdQ)[0]] else old(posted)
      ensures Unanswered() == AfterWait(old(Unanswered()), slots, turns)
    {
      var cmd := cmdQ[0];
      cmdQ := cmdQ[1..];
      ok := ReadyWait(turns);
      if ok {
        ok := MsgWrite(cmd);
      }
    }

    /** hal_rpu_cmd_process_queue: a message whose wait times out is dropped, and the next one goes on. */
    method CmdProcessQueue(turns: seq<nat>) returns (ok: bool, ghost ready: seq<bool>)
      requires Valid() && |turns| == |cmdQ| && Short(maxCmdSize, cmdQ)
      modifies this
      ensures Valid() && cmdQ == []
      ensures ready == Ready(old(Unanswered()), slots, turns)
      ensures posted == old(posted) + Kept(old(cmdQ), ready)
      ensures Unanswered() == Unread(old(Unanswered()), slots, turns)
      ensures ok <==> ready != [] && ready[|ready| - 1]
    {
      ghost var q, posted0, before := cmdQ, posted, Unanswered();
      ready, ok := [], false;
      var k := 0;
      ProgressStart(q, turns, slots, before, posted0);
      while cmdQ != []
        invariant Valid() && Short(maxCmdSize, cmdQ)
        invariant Progress(q, turns, slots, before, posted0, k, cmdQ, ready, posted, Unanswered())
        invariant ok <==> ready != [] && ready[|ready| - 1]
        decreases |cmdQ|
      {
        ghost var rest, posted1, n := cmdQ, posted, Unanswered();
        ok := SendFirst(turns[k]);
        ProgressNext(q, turns, slots, before, posted0, k, rest, ready, posted1, n, ok, posted, Unanswered());
        ready := ready + [ok];
        k := k + 1;
      }
      ProgressDone(q, turns, slots, before, posted0, k, cmdQ, ready, posted, Unanswered());
    }

    /** hal_rpu_cmd_queue. */
    method CmdQueue(cmd: Msg)
      requires 0 < maxCmdSize
      modifies this`cmdQ
      ensures cmdQ == old(cmdQ) + Fragments(cmd, maxCmdSize)
    {
      if |cmd| > maxCmdSize {
        var data := cmd;
        while data != []
          invariant cmdQ + Pieces(data, maxCmdSize) == old(cmdQ) + Pieces(cmd, maxCmdSize)
          decreases |data|
        {
          var size := if |data| > maxCmdSize then maxCmdSize else |data|;
          ghost var rest := Pieces(data[size..], maxCmdSize);
          PiecesStep(data, size, maxCmdSize);
          assert cmdQ + ([data[..size]] + rest) == cmdQ + [data[..size]] + rest;
          cmdQ := cmdQ + [data[..size]];
          data := data[size..];
        }
      } else {
        cmdQ := cmdQ + [cmd];
      }
    }

    /** nrf_wifi_hal_ctrl_cmd_send. */
    method CtrlCmdSend(cmd: Msg, turns: seq<nat>) returns (ok: bool, ghost ready: seq<bool>)
      requires Valid() && cmdQ == [] && |turns| == |Fragments(cmd, maxCmdSize)|
      modifies this
      ensures Valid() && cmdQ == []
      ensures ready == Ready(old(Unanswered()), slots, turns)
      ensures posted == old(posted) + Kept(Fragments(cmd, maxCmdSize), ready)
      ensures Unanswered() == Unread(old(Unanswered()), slots, turns)
      ensures ok <==> ready[|ready| - 1]
    {
      FragmentsShort(cmd, maxCmdSize);
      CmdQueue(cmd);
      ok, ready := CmdProcessQueue(turns);
    }
  }
}
