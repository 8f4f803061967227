/** What the threads do with a stream, packet by packet: every accepted packet is processed
    once, by the thread its addresses and ports select, and every thread can finish. */
module ShardingLog {
  import opened Tracker
  import opened Sharding

  // ------------------------------------------------------------------ how many packets

  function Accepted(ps: seq<Packet>): (k: nat) {
    if ps == [] then 0
    else Accepted(ps[..|ps| - 1]) + (if ps[|ps| - 1].segment.Some? then 1 else 0)
  }

  // Packets kept by the first j threads, and packets processed by them.
  function KeptByFirst(ps: seq<Packet>, n: nat, j: nat): (k: nat)
    requires n > 0
  {
    if j == 0 then 0 else KeptByFirst(ps, n, j - 1) + Kept(ps, n, j - 1)
  }

  function ProcessedByFirst(slots: seq<Slot>, j: nat): (k: nat)
    requires j <= |slots|
  {
    if j == 0 then 0 else ProcessedByFirst(slots, j - 1) + slots[j - 1].worker.processed
  }

  lemma {:induction false} KeptByFirstGrows(ps: seq<Packet>, n: nat, j: nat)
    requires n > 0 && ps != [] && j <= n
    ensures var p := ps[|ps| - 1];
            KeptByFirst(ps, n, j) == KeptByFirst(ps[..|ps| - 1], n, j)
              + (if p.segment.Some? && Shard(p.segment.value.tuple, n) < j then 1 else 0)
  {
    if j > 0 { KeptByFirstGrows(ps, n, j - 1); }
  }

  lemma {:induction false} NothingKept(n: nat, j: nat)
    requires n > 0
    ensures KeptByFirst([], n, j) == 0
  {
    if j > 0 { NothingKept(n, j - 1); }
  }

  lemma {:induction false} KeptOnce(ps: seq<Packet>, n: nat)
    requires n > 0
    ensures KeptByFirst(ps, n, n) == Accepted(ps)
  {
    if ps == [] {
      NothingKept(n, n);
    } else {
      KeptByFirstGrows(ps, n, n);
      KeptOnce(ps[..|ps| - 1], n);
    }
  }

  lemma {:induction false} ProcessedIsKept(cfg: Config, m: nat, stream: seq<Packet>, sys: System, j: nat)
    requires m > 0 && Sane(cfg, m, stream, sys) && j <= |sys.slots|
    requires forall i :: 0 <= i < |sys.slots| ==> sys.slots[i].pos == |stream|
    ensures ProcessedByFirst(sys.slots, j) == KeptByFirst(stream, |sys.slots|, j)
  {
    if j > 0 {
      ProcessedIsKept(cfg, m, stream, sys, j - 1);
      assert SaneSlot(cfg, m, stream, |sys.slots|, j - 1, sys.slots[j - 1]);
      assert stream[..|stream|] == stream;
    }
  }

  // ------------------------------------------------------------------ which packets

  // The positions at which thread i counted a packet as processed, in the order it did.
  ghost function Log(cfg: Config, m: nat, stream: seq<Packet>, n: nat, schedule: seq<nat>, i: nat): (log: seq<nat>)
    requires m > 0 && n > 0 && IsSchedule(schedule, n) && i < n
  {
    if schedule == [] then []
    else
      var rest := schedule[..|schedule| - 1];
      var before, after := Execute(cfg, m, stream, n, rest).slots[i], Execute(cfg, m, stream, n, schedule).slots[i];
      Log(cfg, m, stream, n, rest, i) + (if after.worker.processed > before.worker.processed then [before.pos] else [])
  }

  // The positions of the packets of ps that thread i of n keeps.
  function KeptAt(ps: seq<Packet>, n: nat, i: nat): (at: seq<nat>)
    requires n > 0
    ensures |at| == Kept(ps, n, i)
    ensures forall a: nat :: a in at <==> a < |ps| && IsKept(ps[a], n, i)
    ensures forall x | 0 <= x < |at| :: at[x] < |ps|
    ensures forall x, y | 0 <= x < y < |at| :: at[x] < at[y]
  {
    if ps == [] then []
    else KeptAt(ps[..|ps| - 1], n, i) + (if IsKept(ps[|ps| - 1], n, i) then [|ps| - 1] else [])
  }

  lemma KeptAtGrows(stream: seq<Packet>, pos: nat, n: nat, i: nat)
    requires n > 0 && pos < |stream|
    ensures KeptAt(stream[..pos + 1], n, i) == KeptAt(stream[..pos], n, i) + (if IsKept(stream[pos], n, i) then [pos] else [])
  {
    assert stream[..pos + 1][..pos] == stream[..pos] && stream[..pos + 1][pos] == stream[pos];
  }

  // What one turn does to the position and the counter of a thread.
  lemma TurnCounts(cfg: Config, m: nat, stream: seq<Packet>, sys: System, i: nat, j: nat)
    requires m > 0 && Sane(cfg, m, stream, sys) && i < |sys.slots| && j < |sys.slots|
    ensures var slot, r := sys.slots[i], Advance(cfg, stream, sys, j).slots[i];
            if j != i || slot.pos == |stream| then r == slot
            else
              var counts := !slot.waiting && IsKept(stream[slot.pos], |sys.slots|, i);
              && r.worker.processed == slot.worker.processed + (if counts then 1 else 0)
              && r.pos == (if r.waiting then slot.pos else slot.pos + 1)
              && (r.waiting ==> counts) && (slot.waiting ==> !r.waiting)
  {
    if i == j {
      var slot := sys.slots[i];
      assert SaneSlot(cfg, m, stream, |sys.slots|, i, slot);
      if slot.pos < |stream| { BeginKeepsBuckets(cfg, |sys.slots|, i, slot.worker, stream[slot.pos]); }
    }
  }

  // Where a thread stands, its log is the list of its own packets up to there.
  lemma {:induction false} LogIsKept(cfg: Config, m: nat, stream: seq<Packet>, n: nat, schedule: seq<nat>, i: nat)
    requires m > 0 && n > 0 && IsSchedule(schedule, n) && i < n
    ensures var slot := Execute(cfg, m, stream, n, schedule).slots[i];
            && slot.pos <= |stream| && (slot.waiting ==> slot.pos < |stream|)
            && Log(cfg, m, stream, n, schedule, i) == KeptAt(stream[..if slot.waiting then slot.pos + 1 else slot.pos], n, i)
  {
    var sys := Execute(cfg, m, stream, n, schedule);
    assert SaneSlot(cfg, m, stream, n, i, sys.slots[i]);
    if schedule != [] {
      var rest := schedule[..|schedule| - 1];
      var before := Execute(cfg, m, stream, n, rest);
      LogIsKept(cfg, m, stream, n, rest, i);
      assert SaneSlot(cfg, m, stream, n, i, before.slots[i]);
      TurnCounts(cfg, m, stream, before, i, schedule[|schedule| - 1]);
      var pos := before.slots[i].pos;
      if pos < |stream| { KeptAtGrows(stream, pos, n, i); }
    }
  }

  // Once all threads have read the stream: a packet is in the log of a thread exactly when it
  // carries a flow of that thread's shard, no log repeats a packet, and the counters are
  // the lengths of the logs and add up to the accepted packets.
  lemma EveryPacketOnce(cfg: Config, m: nat, stream: seq<Packet>, n: nat, schedule: seq<nat>)
    requires m > 0 && n > 0 && IsSchedule(schedule, n)
    requires forall i :: 0 <= i < n ==> Execute(cfg, m, stream, n, schedule).slots[i].pos == |stream|
    ensures forall i: nat, a: nat | i < n && a < |stream| ::
              a in Log(cfg, m, stream, n, schedule, i) <==>
              stream[a].segment.Some? && Shard(stream[a].segment.value.tuple, n) == i
    ensures forall i: nat, x, y | i < n && 0 <= x < y < |Log(cfg, m, stream, n, schedule, i)| ::
              Log(cfg, m, stream, n, schedule, i)[x] < Log(cfg, m, stream, n, schedule, i)[y] < |stream|
    ensures forall i: nat | i < n ::
              Execute(cfg, m, stream, n, schedule).slots[i].worker.processed == |Log(cfg, m, stream, n, schedule, i)|
    ensures ProcessedByFirst(Execute(cfg, m, stream, n, schedule).slots, n) == Accepted(stream)
  {
    var sys := Execute(cfg, m, stream, n, schedule);
    ProcessedIsKept(cfg, m, stream, sys, n);
    KeptOnce(stream, n);
    assert stream[..|stream|] == stream;
    forall i: nat | i < n
      ensures Log(cfg, m, stream, n, schedule, i) == KeptAt(stream, n, i)
      ensures sys.slots[i].worker.processed == Kept(stream, n, i)
    {
      assert SaneSlot(cfg, m, stream, n, i, sys.slots[i]);
      LogIsKept(cfg, m, stream, n, schedule, i);
    }
    forall i: nat, x, y | i < n && 0 <= x < y < |Log(cfg, m, stream, n, schedule, i)|
      ensures Log(cfg, m, stream, n, schedule, i)[x] < Log(cfg, m, stream, n, schedule, i)[y] < |stream|
    {
      assert KeptAt(stream, n, i)[y] in KeptAt(stream, n, i);
    }
  }

  // ------------------------------------------------------------------ every thread can finish

  lemma {:induction false} ThreadFinishes(cfg: Config, m: nat, stream: seq<Packet>, n: nat, schedule: seq<nat>, i: nat)
    returns (longer: seq<nat>)
    requires m > 0 && n > 0 && IsSchedule(schedule, n) && i < n
    ensures schedule <= longer && IsSchedule(longer, n)
    ensures Execute(cfg, m, stream, n, longer).slots[i].pos == |stream|
    ensures forall j | 0 <= j < n && j != i ::
              Execute(cfg, m, stream, n, longer).slots[j] == Execute(cfg, m, stream, n, schedule).slots[j]
    decreases 2 * (|stream| - Execute(cfg, m, stream, n, schedule).slots[i].pos),
              if Execute(cfg, m, stream, n, schedule).slots[i].waiting then 0 else 1
  {
    var sys := Execute(cfg, m, stream, n, schedule);
    assert SaneSlot(cfg, m, stream, n, i, sys.slots[i]);
    if sys.slots[i].pos == |stream| {
      longer := schedule;
    } else {
      var next := schedule + [i];
      assert next[..|schedule|] == schedule;
      forall j: nat | j < n ensures j != i ==> Execute(cfg, m, stream, n, next).slots[j] == sys.slots[j] {
        TurnCounts(cfg, m, stream, sys, j, i);
      }
      TurnCounts(cfg, m, stream, sys, i, i);
      longer := ThreadFinishes(cfg, m, stream, n, next, i);
    }
  }

  lemma {:induction false} FirstThreadsFinish(cfg: Config, m: nat, stream: seq<Packet>, n: nat, schedule: seq<nat>, j: nat)
    returns (longer: seq<nat>)
    requires m > 0 && n > 0 && IsSchedule(schedule, n) && j <= n
    ensures schedule <= longer && IsSchedule(longer, n)
    ensures forall i | 0 <= i < j :: Execute(cfg, m, stream, n, longer).slots[i].pos == |stream|
    decreases j
  {
    longer := schedule;
    if j > 0 {
      longer := FirstThreadsFinish(cfg, m, stream, n, schedule, j - 1);
      longer := ThreadFinishes(cfg, m, stream, n, longer, j - 1);
    }
  }

  // No interleaving is stuck: every schedule can be continued until all threads have read the stream.
  lemma EveryScheduleCompletes(cfg: Config, m: nat, stream: seq<Packet>, n: nat, schedule: seq<nat>)
    requires m > 0 && n > 0 && IsSchedule(schedule, n)
    ensures exists longer: seq<nat> ::
              && schedule <= longer && IsSchedule(longer, n)
              && forall i | 0 <= i < n :: Execute(cfg, m, stream, n, longer).slots[i].pos == |stream|
  {
    var longer := FirstThreadsFinish(cfg, m, stream, n, schedule, n);
  }
}
