/** utils/timewheel/timewheel.go: a circular array of buckets with an id index, against a
    plain table from task id to due tick. */
module TimingWheel {
  import opened Arithmetic
  import opened Common

  /** None stands for a nil callback, for which the wheel's own callback is used. */
  datatype Task = Task(id: int, callback: Option<Id>)

  datatype WheelError = NegativeDelay | ExceedsCapacity

  // ---- the table the wheel should be ----

  datatype Due = Due(tick: int, callback: Option<Id>)

  datatype Spec = Spec(now: int, due: map<int, Due>)

  datatype Config = Config(interval: int, numSlots: int) {
    ghost predicate Valid() {
      interval > 0 && numSlots > 0
    }
  }

  datatype Op = Add(id: int, delay: int, callback: Option<Id>) | Cancel(id: int) | Tick

  ghost predicate Accepted(c: Config, op: Op) {
    op.Add? ==> 0 <= op.delay < c.numSlots * c.interval
  }

  /** What fires at this tick. */
  ghost function Firing(s: Spec): map<int, Option<Id>> {
    map id | id in s.due && s.due[id].tick == s.now :: s.due[id].callback
  }

  ghost function Apply(c: Config, s: Spec, op: Op): Spec
    requires c.Valid()
  {
    match op
    case Add(id, delay, callback) =>
      if Accepted(c, op) then s.(due := s.due[id := Due(s.now + delay / c.interval, callback)]) else s
    case Cancel(id) => s.(due := s.due - {id})
    case Tick => Spec(s.now + 1, s.due - Firing(s).Keys)
  }

  /** Nothing is overdue, and nothing is due later than one turn of the wheel. */
  ghost predicate Timely(c: Config, s: Spec) {
    forall id :: id in s.due ==> s.now <= s.due[id].tick < s.now + c.numSlots
  }

  lemma ApplyTimely(c: Config, s: Spec, op: Op)
    requires c.Valid() && Timely(c, s)
    ensures Timely(c, Apply(c, s, op))
  {
    if op.Add? && Accepted(c, op) {
      TicksFit(c, op.delay);
    }
  }

  lemma TicksFit(c: Config, delay: int)
    requires c.Valid() && 0 <= delay < c.numSlots * c.interval
    ensures 0 <= delay / c.interval < c.numSlots
  {
    var q := delay / c.interval;
    assert q * c.interval <= delay;
    if q >= c.numSlots {
      TimesMonotone(c.numSlots, q, c.interval);
    }
  }

  ghost function ApplyAll(c: Config, s: Spec, ops: seq<Op>): Spec
    requires c.Valid()
    decreases |ops|
  {
    if ops == [] then s else ApplyAll(c, Apply(c, s, ops[0]), ops[1..])
  }

  /** What each tick of a run fires, in order. */
  ghost function Log(c: Config, s: Spec, ops: seq<Op>): seq<map<int, Option<Id>>>
    requires c.Valid()
    decreases |ops|
  {
    if ops == [] then []
    else (if ops[0] == Tick then [Firing(s)] else []) + Log(c, Apply(c, s, ops[0]), ops[1..])
  }

  /** No accepted addition and no cancellation of this id. */
  ghost predicate LeavesAlone(c: Config, ops: seq<Op>, id: int) {
    forall op :: op in ops ==> op != Cancel(id) && (op.Add? && op.id == id ==> !Accepted(c, op))
  }

  lemma LeavesAloneTail(c: Config, ops: seq<Op>, id: int)
    requires LeavesAlone(c, ops, id) && ops != []
    ensures LeavesAlone(c, ops[1..], id)
    ensures ops[0] != Cancel(id) && (ops[0].Add? && ops[0].id == id ==> !Accepted(c, ops[0]))
  {
    assert ops[0] in ops;
    assert forall op :: op in ops[1..] ==> op in ops;
  }

  /** A task that is not replaced or cancelled fires once, at its due tick and no other, with
      its own callback, and stays in the table until then. */
  lemma {:induction false} FiresExactlyWhenDue(c: Config, s: Spec, ops: seq<Op>, id: int)
    requires c.Valid() && Timely(c, s) && LeavesAlone(c, ops, id) && id in s.due
    ensures forall k :: 0 <= k < |Log(c, s, ops)| ==>
                          && (id in Log(c, s, ops)[k] <==> s.now + k == s.due[id].tick)
                          && (id in Log(c, s, ops)[k] ==> Log(c, s, ops)[k][id] == s.due[id].callback)
    ensures id in ApplyAll(c, s, ops).due <==> ApplyAll(c, s, ops).now <= s.due[id].tick
    ensures id in ApplyAll(c, s, ops).due ==> ApplyAll(c, s, ops).due[id] == s.due[id]
    decreases |ops|
  {
    if ops != [] {
      LeavesAloneTail(c, ops, id);
      ApplyTimely(c, s, ops[0]);
      var t := Apply(c, s, ops[0]);
      if id in t.due {
        FiresExactlyWhenDue(c, t, ops[1..], id);
      } else {
        NeverFiresWhenAbsent(c, t, ops[1..], id);
        LogLength(c, t, ops[1..]);
      }
    }
  }

  lemma {:induction false} LogLength(c: Config, s: Spec, ops: seq<Op>)
    requires c.Valid()
    ensures ApplyAll(c, s, ops).now == s.now + |Log(c, s, ops)|
    decreases |ops|
  {
    if ops != [] {
      LogLength(c, Apply(c, s, ops[0]), ops[1..]);
    }
  }

  /** A cancelled task, or one that already fired, never fires again until it is added anew. */
  lemma {:induction false} NeverFiresWhenAbsent(c: Config, s: Spec, ops: seq<Op>, id: int)
    requires c.Valid() && LeavesAlone(c, ops, id) && id !in s.due
    ensures forall k :: 0 <= k < |Log(c, s, ops)| ==> id !in Log(c, s, ops)[k]
    ensures id !in ApplyAll(c, s, ops).due
    decreases |ops|
  {
    if ops != [] {
      LeavesAloneTail(c, ops, id);
      NeverFiresWhenAbsent(c, Apply(c, s, ops[0]), ops[1..], id);
    }
  }

  /** The delay rounded down to whole ticks after the addition, and only the last addition
      counts: an addition replaces any earlier task of the same id. */
  lemma AddedFiresOnTime(c: Config, s: Spec, id: int, delay: int, callback: Option<Id>, ops: seq<Op>)
    requires c.Valid() && Timely(c, s) && 0 <= delay < c.numSlots * c.interval && LeavesAlone(c, ops, id)
    ensures var t := Apply(c, s, Add(id, delay, callback));
            forall k :: 0 <= k < |Log(c, t, ops)| ==>
                          && (id in Log(c, t, ops)[k] <==> k == delay / c.interval)
                          && (id in Log(c, t, ops)[k] ==> Log(c, t, ops)[k][id] == callback)
  {
    ApplyTimely(c, s, Add(id, delay, callback));
    FiresExactlyWhenDue(c, Apply(c, s, Add(id, delay, callback)), ops, id);
  }

  // ---- buckets ----

  /** An element of a bucket's list: identified by the object, as Remove is. */
  class Element {
    const task: Task

    constructor (task: Task)
      ensures this.task == task
    {
      this.task := task;
    }
  }

  /** The list without one element. */
  function Without(l: seq<Element>, e: Element): (r: seq<Element>)
    ensures forall x :: x in r ==> x in l && x != e
    ensures forall x :: x in l && x != e ==> x in r
    decreases |l|
  {
    if l == [] then [] else
      var rest := Without(l[1..], e);
      assert l == [l[0]] + l[1..];
      if l[0] == e then rest else [l[0]] + rest
  }

  ghost predicate NoRepeats(l: seq<Element>) {
    forall i, j :: 0 <= i < j < |l| ==> l[i] != l[j]
  }

  class Bucket {
    var l: seq<Element>

    constructor ()
      ensures l == []
    {
      l := [];
    }

    method Push(task: Task) returns (e: Element)
      modifies this
      ensures fresh(e) && e.task == task && l == old(l) + [e]
    {
      e := new Element(task);
      l := l + [e];
    }

    method Remove(e: Element)
      modifies this
      ensures l == Without(old(l), e)
    {
      l := Without(l, e);
    }
  }

  datatype TaskElement = TaskElement(slotIdx: int, element: Element)

  type Index = map<int, TaskElement>

  /** The index and the buckets are in bijection: every indexed id has its element in its
      slot, every element is indexed where it lies, and nothing is listed twice. */
  ghost predicate Bijection(index: Index, lists: seq<seq<Element>>) {
    && (forall id :: id in index ==>
                       && 0 <= index[id].slotIdx < |lists| && index[id].element in lists[index[id].slotIdx]
                       && index[id].element.task.id == id)
    && (forall s, e :: 0 <= s < |lists| && e in lists[s] ==>
                         e.task.id in index && index[e.task.id] == TaskElement(s, e))
    && (forall s :: 0 <= s < |lists| ==> NoRepeats(lists[s]))
  }

  /** The next tick at which the slot comes up. */
  ghost function DueTick(pos: int, slot: int, n: int): int
    requires n > 0
  {
    pos + (slot - pos) % n
  }

  ghost function Table(index: Index, pos: int, n: int): map<int, Due>
    requires n > 0
  {
    map id | id in index :: Due(DueTick(pos, index[id].slotIdx, n), index[id].element.task.callback)
  }

  lemma TableWithout(index: Index, pos: int, n: int, id: int)
    requires n > 0
    ensures Table(index - {id}, pos, n) == Table(index, pos, n) - {id}
    ensures id !in index ==> Table(index, pos, n) - {id} == Table(index, pos, n)
  {
  }

  // ---- index and buckets through each change ----

  lemma {:induction false} WithoutNoRepeats(l: seq<Element>, e: Element)
    requires NoRepeats(l)
    ensures NoRepeats(Without(l, e))
    decreases |l|
  {
    if l != [] {
      WithoutNoRepeats(l[1..], e);
      var rest := Without(l[1..], e);
      assert l[0] !in l[1..];
      assert l[0] !in rest;
    }
  }

  lemma RemovedBijection(index: Index, lists: seq<seq<Element>>, id: int)
    requires Bijection(index, lists) && id in index
    ensures var slot, e := index[id].slotIdx, index[id].element;
            Bijection(index - {id}, lists[slot := Without(lists[slot], e)])
  {
    var slot, e := index[id].slotIdx, index[id].element;
    WithoutNoRepeats(lists[slot], e);
  }

  lemma AddedBijection(index: Index, lists: seq<seq<Element>>, slot: nat, e: Element)
    requires Bijection(index, lists) && slot < |lists| && e.task.id !in index
    ensures Bijection(index[e.task.id := TaskElement(slot, e)], lists[slot := lists[slot] + [e]])
  {
    forall s | 0 <= s < |lists|
      ensures e !in lists[s]
    {
    }
  }

  // ---- which tick a slot stands for ----

  lemma NewDueTick(pos: int, k: int, n: int)
    requires n > 0 && 0 <= k < n
    ensures DueTick(pos, (pos + k) % n, n) == pos + k
  {
    var slot := (pos + k) % n;
    var q := (pos + k) / n;
    assert slot - pos == -q * n + k by {
      assert pos + k == q * n + slot;
      assert -q * n == -(q * n);
    }
    DivisionUnique(slot - pos, n, -q, k);
  }

  lemma DueTickNow(pos: int, slot: int, n: int)
    requires n > 0 && 0 <= slot < n
    ensures pos <= DueTick(pos, slot, n) < pos + n
    ensures DueTick(pos, slot, n) == pos <==> slot == pos % n
  {
    var q := pos / n;
    assert pos == q * n + pos % n;
    if slot == pos % n {
      assert slot - pos == -q * n + 0 by {
        assert -q * n == -(q * n);
      }
      DivisionUnique(slot - pos, n, -q, 0);
    }
    var k := (slot - pos) / n;
    assert slot - pos == k * n + (slot - pos) % n;
    if DueTick(pos, slot, n) == pos {
      assert pos == -k * n + slot by {
        assert -k * n == -(k * n);
      }
      DivisionUnique(pos, n, -k, slot);
    }
  }

  /** A slot that is not up now keeps its tick when the wheel moves on. */
  lemma DueTickStays(pos: int, slot: int, n: int)
    requires n > 0 && 0 <= slot < n && slot != pos % n
    ensures DueTick(pos + 1, slot, n) == DueTick(pos, slot, n)
  {
    DueTickNow(pos, slot, n);
    var r := (slot - pos) % n;
    var q := (slot - pos) / n;
    assert slot - (pos + 1) == q * n + (r - 1);
    DivisionUnique(slot - (pos + 1), n, q, r - 1);
  }

  lemma TableAdd(index: Index, pos: int, n: int, id: int, info: TaskElement)
    requires n > 0
    ensures Table(index[id := info], pos, n) ==
            Table(index, pos, n)[id := Due(DueTick(pos, info.slotIdx, n), info.element.task.callback)]
  {
  }

  lemma TableIsTimely(c: Config, index: Index, lists: seq<seq<Element>>, pos: int)
    requires c.Valid() && Bijection(index, lists) && |lists| == c.numSlots
    ensures Timely(c, Spec(pos, Table(index, pos, c.numSlots)))
  {
    forall id | id in index
      ensures pos <= DueTick(pos, index[id].slotIdx, c.numSlots) < pos + c.numSlots
    {
      DueTickNow(pos, index[id].slotIdx, c.numSlots);
    }
  }

  // ---- one tick ----

  ghost function IdsOf(l: seq<Element>): set<int> {
    set e | e in l :: e.task.id
  }

  ghost function TasksOf(l: seq<Element>): seq<Task> {
    seq(|l|, i requires 0 <= i < |l| => l[i].task)
  }

  /** The tasks handed on are exactly those that fire, each once, with its callback. */
  ghost predicate IsFiring(firing: map<int, Option<Id>>, tasks: seq<Task>) {
    && (forall i :: 0 <= i < |tasks| ==> tasks[i].id in firing && firing[tasks[i].id] == tasks[i].callback)
    && (forall i, j :: 0 <= i < j < |tasks| ==> tasks[i].id != tasks[j].id)
    && (forall id :: id in firing ==> exists i :: 0 <= i < |tasks| && tasks[i].id == id)
  }

  lemma SlotFires(index: Index, lists: seq<seq<Element>>, pos: int, n: int)
    requires n == |lists| > 0 && Bijection(index, lists)
    ensures IsFiring(Firing(Spec(pos, Table(index, pos, n))), TasksOf(lists[pos % n]))
    ensures Firing(Spec(pos, Table(index, pos, n))).Keys == IdsOf(lists[pos % n])
  {
    var slot, firing := pos % n, Firing(Spec(pos, Table(index, pos, n)));
    var l := lists[slot];
    forall id | id in index
      ensures id in firing <==> index[id].slotIdx == slot
      ensures index[id].slotIdx == slot ==> index[id].element in l
    {
      DueTickNow(pos, index[id].slotIdx, n);
    }
    forall i | 0 <= i < |l|
      ensures l[i].task.id in index && index[l[i].task.id] == TaskElement(slot, l[i])
    {
      assert l[i] in lists[slot];
    }
    forall id | id in firing
      ensures id in IdsOf(l) && exists i :: 0 <= i < |l| && TasksOf(l)[i].id == id
    {
      var i :| 0 <= i < |l| && l[i] == index[id].element;
      assert TasksOf(l)[i].id == id;
    }
  }

  lemma DrainedBijection(index: Index, lists: seq<seq<Element>>, slot: nat)
    requires Bijection(index, lists) && slot < |lists|
    ensures Bijection(index - IdsOf(lists[slot]), lists[slot := []])
  {
    forall id | id in index && id !in IdsOf(lists[slot])
      ensures index[id].slotIdx != slot
    {
    }
  }

  lemma DrainedTable(index: Index, lists: seq<seq<Element>>, pos: int, n: int)
    requires n == |lists| > 0 && Bijection(index, lists)
    ensures var rest := index - IdsOf(lists[pos % n]);
            var before := Spec(pos, Table(index, pos, n));
            Spec(pos + 1, Table(rest, pos + 1, n)) == Spec(pos + 1, before.due - Firing(before).Keys)
  {
    SlotFires(index, lists, pos, n);
    var rest, before := index - IdsOf(lists[pos % n]), Spec(pos, Table(index, pos, n));
    forall id | id in rest
      ensures DueTick(pos + 1, index[id].slotIdx, n) == DueTick(pos, index[id].slotIdx, n)
    {
      DueTickStays(pos, index[id].slotIdx, n);
    }
    assert Table(rest, pos + 1, n) == before.due - Firing(before).Keys;
  }

  class TimingWheel {
    const interval: int
    const numSlots: int
    const slots: seq<Bucket>
    var currentPos: int
    var globalTasks: Index
    /** The channel to the goroutines that call back. */
    var consumer: seq<Task>

    ghost function Settings(): Config {
      Config(interval, numSlots)
    }

    ghost function Lists(): seq<seq<Element>>
      reads slots
    {
      seq(|slots|, i requires 0 <= i < |slots| reads slots => slots[i].l)
    }

    ghost predicate Valid()
      reads this, slots
    {
      && Settings().Valid() && |slots| == numSlots && currentPos >= 0
      && (forall i, j :: 0 <= i < j < |slots| ==> slots[i] != slots[j])
      && Bijection(globalTasks, Lists())
    }

    ghost function View(): Spec
      requires Settings().Valid()
      reads this
    {
      Spec(currentPos, Table(globalTasks, currentPos, numSlots))
    }

    constructor (interval: int, numSlots: int)
      requires interval > 0 && numSlots > 0
      ensures Valid() && View() == Spec(0, map[]) && consumer == [] && fresh(slots)
      ensures Settings() == Config(interval, numSlots)
    {
      this.interval, this.numSlots, currentPos, globalTasks, consumer := interval, numSlots, 0, map[], [];
      var slots: seq<Bucket> := [];
      for i := 0 to numSlots
        invariant |slots| == i && fresh(slots)
        invariant forall j :: 0 <= j < i ==> slots[j].l == []
        invariant forall j, k :: 0 <= j < k < i ==> slots[j] != slots[k]
      {
        var b := new Bucket();
        slots := slots + [b];
      }
      this.slots := slots;
    }

    /** Removes the element that the index holds for id. */
    method Unlink(id: int)
      requires Valid() && id in globalTasks
      modifies slots
      ensures Lists() == old(Lists())[globalTasks[id].slotIdx :=
                                        Without(old(Lists())[globalTasks[id].slotIdx], globalTasks[id].element)]
      ensures Bijection(globalTasks - {id}, Lists())
    {
      var info := globalTasks[id];
      RemovedBijection(globalTasks, Lists(), id);
      ghost var lists := Lists();
      slots[info.slotIdx].Remove(info.element);
      assert Lists() == lists[info.slotIdx := Without(lists[info.slotIdx], info.element)];
    }

    method Insert(slotIdx: int, task: Task) returns (e: Element)
      requires Valid() && 0 <= slotIdx < numSlots && task.id !in globalTasks
      modifies slots, `globalTasks
      ensures Valid() && e.task == task && globalTasks == old(globalTasks)[task.id := TaskElement(slotIdx, e)]
    {
      ghost var lists := Lists();
      e := slots[slotIdx].Push(task);
      assert Lists() == lists[slotIdx := lists[slotIdx] + [e]];
      AddedBijection(globalTasks, lists, slotIdx, e);
      globalTasks := globalTasks[task.id := TaskElement(slotIdx, e)];
    }

    method AddTask(id: int, d: int, callback: Option<Id>) returns (err: Option<WheelError>)
      requires Valid()
      modifies slots, `globalTasks
      ensures Valid()
      ensures err == if d < 0 then Some(NegativeDelay)
                     else if d >= numSlots * interval then Some(ExceedsCapacity)
                     else None
      ensures View() == Apply(Settings(), old(View()), Add(id, d, callback))
    {
      hide Bijection, Table, DueTick, Lists;
      if d < 0 {
        return Some(NegativeDelay);
      }
      var maxDelay := numSlots * interval;
      if d >= maxDelay {
        return Some(ExceedsCapacity);
      }
      var delayTicks := d / interval;
      TicksFit(Settings(), d);
      var slotIdx := (currentPos + delayTicks) % numSlots;
      NewDueTick(currentPos, delayTicks, numSlots);
      ghost var before := globalTasks;
      var e := Replace(slotIdx, Task(id, callback));
      TableAdd(before, currentPos, numSlots, id, TaskElement(slotIdx, e));
      return None;
    }

    /** An existing task of the same id is removed first. */
    method Replace(slotIdx: int, task: Task) returns (e: Element)
      requires Valid() && 0 <= slotIdx < numSlots
      modifies slots, `globalTasks
      ensures Valid() && e.task == task && globalTasks == old(globalTasks)[task.id := TaskElement(slotIdx, e)]
    {
      hide Bijection;
      if task.id in globalTasks {
        Unlink(task.id);
        RemoveGlobalTask(task.id);
      }
      e := Insert(slotIdx, task);
    }

    method Cancel(id: int)
      requires Valid()
      modifies slots, `globalTasks
      ensures Valid() && View() == Apply(Settings(), old(View()), Op.Cancel(id))
    {
      hide Table, Bijection;
      TableWithout(globalTasks, currentPos, numSlots, id);
      if id !in globalTasks {
        return;
      }
      Unlink(id);
      RemoveGlobalTask(id);
    }

    method RemoveGlobalTask(id: int)
      modifies `globalTasks
      ensures globalTasks == old(globalTasks) - {id}
    {
      globalTasks := globalTasks - {id};
    }

    /** One tick: everything in the current slot is handed on, and the wheel moves. */
    method AdvanceAndRun() returns (ghost fired: seq<Task>)
      requires Valid()
      modifies slots, `globalTasks, `consumer, `currentPos
      ensures Valid() && View() == Apply(Settings(), old(View()), Tick)
      ensures consumer == old(consumer) + fired && IsFiring(Firing(old(View())), fired)
    {
      var idx := currentPos % numSlots;
      ghost var lists := Lists();
      fired := TasksOf(lists[idx]);
      SlotFires(globalTasks, lists, currentPos, numSlots);
      DrainedBijection(globalTasks, lists, idx);
      DrainedTable(globalTasks, lists, currentPos, numSlots);
      Execute(slots[idx]);
      assert Lists() == lists[idx := []];
      currentPos := currentPos + 1;
    }

    /** Bucket.Execute: from the front, each task leaves the index, goes to the consumers and
        leaves the list. */
    method Execute(b: Bucket)
      modifies b, `globalTasks, `consumer
      ensures b.l == [] && globalTasks == old(globalTasks) - IdsOf(old(b.l))
      ensures consumer == old(consumer) + TasksOf(old(b.l))
    {
      ghost var l := b.l;
      ghost var i := 0;
      while |b.l| > 0
        invariant i <= |l| && b.l == l[i..]
        invariant globalTasks == old(globalTasks) - IdsOf(l[..i])
        invariant consumer == old(consumer) + TasksOf(l[..i])
        decreases |b.l|
      {
        var task := b.l[0].task;
        assert l[..i + 1] == l[..i] + [l[i]];
        RemoveGlobalTask(task.id);
        consumer := consumer + [task];
        b.l := b.l[1..];
        i := i + 1;
      }
      assert l[..i] == l;
    }
  }
}
