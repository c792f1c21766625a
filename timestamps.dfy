/**
  `GpuTimestamps`: a list of named timestamp queries reused frame after frame. `start` rewinds
  to the first entry, every `mark` uses the next entry (appending one when the list runs out),
  and `stop` marks once more and ends the frame.
*/
module Timestamps {
  import opened Driver
  import opened Queries

  /** One `Query` entry: its name, its query object's handle and status, and the last result collected. */
  datatype Stamp = Stamp(name: string, qo: nat, status: Status, result: nat)

  /**
    `Query::mark`: an idle query issues a timestamp; any other one is polled instead, `available`
    being the driver's answer, and keeps a result it collects.
  */
  function MarkStamp(s: Stamp, available: bool, value: nat): (r: Stamp)
    ensures r.name == s.name && r.qo == s.qo
    ensures s.status == Idle ==> r.status == Step(s.status, Mark) && r.result == s.result
    ensures s.status != Idle ==> r.status == Step(s.status, Poll(available))
    ensures r.result == if Collects(s.status, Poll(available)) then value else s.result
  {
    if s.status == Idle then s.(status := Pending)
    else if s.status == Pending && available then s.(status := Idle, result := value)
    else s
  }

  /**
    An entry alternates between issuing and collecting: from IDLE, one `mark` issues the query
    and the next one collects its value if the driver has it (and waits otherwise).
  */
  lemma MarkStampAlternates(s: Stamp, available: bool, value: nat)
    requires s.status == Idle
    ensures MarkStamp(MarkStamp(s, available, value), available, value).status == (if available then Idle else Pending)
    ensures available ==> MarkStamp(MarkStamp(s, available, value), available, value).result == value
  {
  }

  /**
    The entries after `mark(name)` at position `count`: a new entry, named `name` and holding the
    freshly created query `qo`, is appended only when `count` has reached the end of the list,
    and then the entry at `count` is marked.
  */
  function Marked(marks: seq<Stamp>, count: nat, name: string, qo: nat, available: bool, value: nat): (r: seq<Stamp>)
    requires count <= |marks|
    ensures |r| == if count == |marks| then |marks| + 1 else |marks|
    ensures count < |r|
    // entries other than the marked one are untouched, and no existing entry is renamed
    ensures forall i :: 0 <= i < |marks| && i != count ==> r[i] == marks[i]
    ensures forall i :: 0 <= i < |marks| ==> r[i].name == marks[i].name && r[i].qo == marks[i].qo
    ensures count < |marks| ==> r[count] == MarkStamp(marks[count], available, value)
    ensures count == |marks| ==> r[count] == MarkStamp(Stamp(name, qo, Idle, 0), available, value)
  {
    var entries := if count == |marks| then marks + [Stamp(name, qo, Idle, 0)] else marks;
    entries[count := MarkStamp(entries[count], available, value)]
  }

  /** The query handles held by `marks`. */
  ghost function QueriesOf(marks: seq<Stamp>): set<Handle>
  {
    set i | 0 <= i < |marks| :: Handle(Query, marks[i].qo)
  }

  lemma {:induction false} QueriesOfMarked(marks: seq<Stamp>, count: nat, name: string, qo: nat, available: bool, value: nat)
    requires count <= |marks|
    ensures QueriesOf(Marked(marks, count, name, qo, available, value))
      == QueriesOf(marks) + (if count == |marks| then {Handle(Query, qo)} else {})
  {
    var r := Marked(marks, count, name, qo, available, value);
    if count == |marks| {
      assert r[count].qo == qo;
      assert forall h :: h in QueriesOf(r) ==> h in QueriesOf(marks) + {Handle(Query, qo)} by {
        forall h | h in QueriesOf(r)
          ensures h in QueriesOf(marks) + {Handle(Query, qo)}
        {
          var i :| 0 <= i < |r| && h == Handle(Query, r[i].qo);
          if i < |marks| {
            assert h == Handle(Query, marks[i].qo);
          }
        }
      }
    } else {
      assert forall h :: h in QueriesOf(r) ==> h in QueriesOf(marks) by {
        forall h | h in QueriesOf(r)
          ensures h in QueriesOf(marks)
        {
          var i :| 0 <= i < |r| && h == Handle(Query, r[i].qo);
          assert h == Handle(Query, marks[i].qo);
        }
      }
    }
  }

  /** Two steps that each add to `live` exactly what they add to `owned` do so together. */
  lemma GrowthCompose(live0: set<Handle>, live1: set<Handle>, live2: set<Handle>,
                      owned0: set<Handle>, owned1: set<Handle>, owned2: set<Handle>)
    requires live0 <= live1 && live1 <= live2 && owned0 <= owned1 && owned1 <= owned2
    requires live1 - live0 == owned1 - owned0 && live2 - live1 == owned2 - owned1
    ensures live2 - live0 == owned2 - owned0
  {
    assert live2 - live0 == (live2 - live1) + (live1 - live0);
    assert owned2 - owned0 == (owned2 - owned1) + (owned1 - owned0);
  }

  /** Every entry holds its own live, non-zero query. */
  ghost predicate QueriesLive(marks: seq<Stamp>, live: set<Handle>)
  {
    && (forall i :: 0 <= i < |marks| ==> marks[i].qo != 0 && Handle(Query, marks[i].qo) in live)
    && (forall i, j :: 0 <= i < j < |marks| ==> marks[i].qo != marks[j].qo)
  }

  class GpuTimestamps {
    const name: string
    var marks: seq<Stamp>
    var count: nat
    var started: bool

    ghost function Owned(): set<Handle>
      reads this
    {
      QueriesOf(marks)
    }

    /** The entry to mark next is at most one past the end of the list. */
    ghost predicate Valid(gl: Gl)
      reads this, gl
    {
      gl.Valid() && count <= |marks| && QueriesLive(marks, gl.live)
    }

    constructor (name: string)
      ensures this.name == name && marks == [] && count == 0 && !started
    {
      this.name := name;
      marks := [];
      count := 0;
      started := false;
    }

    /**
      `mark(name)`: does nothing outside a frame; otherwise marks the entry at `count` (creating
      it, with a fresh query, when the list runs out) and moves `count` on. `available` and
      `value` are the driver's answers if that entry's query is polled.
    */
    method Mark(gl: Gl, stampName: string, available: bool, value: nat)
      requires Valid(gl)
      modifies this`marks, this`count, gl`live, gl`next
      ensures Valid(gl) && started == old(started)
      ensures !started ==> marks == old(marks) && count == old(count) && gl.live == old(gl.live)
      ensures started ==> count == old(count) + 1 && old(count) < |marks|
      ensures started ==> marks == Marked(old(marks), old(count), stampName, marks[old(count)].qo, available, value)
      ensures started && old(count) < |old(marks)| ==> gl.live == old(gl.live)
      ensures started && old(count) == |old(marks)| ==>
        Handle(Query, marks[old(count)].qo) !in old(gl.live) && gl.live == old(gl.live) + {Handle(Query, marks[old(count)].qo)}
      ensures old(gl.live) <= gl.live && old(Owned()) <= Owned()
      ensures gl.live - old(gl.live) == Owned() - old(Owned())
    {
      if !started {
        return;
      }
      var qo;
      if count == |marks| {
        qo := gl.Gen(Query);
      } else {
        qo := marks[count].qo;
      }
      QueriesOfMarked(marks, count, stampName, qo, available, value);
      marks := Marked(marks, count, stampName, qo, available, value);
      count := count + 1;
    }

    /** `start`: only outside a frame; rewinds to the first entry and marks "start time". */
    method Start(gl: Gl, available: bool, value: nat)
      requires Valid(gl)
      modifies this`marks, this`count, this`started, gl`live, gl`next
      ensures Valid(gl) && started
      ensures old(started) ==> marks == old(marks) && count == old(count) && gl.live == old(gl.live)
      ensures !old(started) ==> count == 1 && 0 < |marks| && marks == Marked(old(marks), 0, "start time", marks[0].qo, available, value)
      ensures !old(started) && 0 < |old(marks)| ==> gl.live == old(gl.live)
      ensures old(gl.live) <= gl.live && old(Owned()) <= Owned()
      ensures gl.live - old(gl.live) == Owned() - old(Owned())
    {
      if !started {
        started := true;
        count := 0;
        Mark(gl, "start time", available, value);
      }
    }

    /** `stop`: only inside a frame; marks "end time" and ends the frame. */
    method Stop(gl: Gl, available: bool, value: nat)
      requires Valid(gl)
      modifies this`marks, this`count, this`started, gl`live, gl`next
      ensures Valid(gl) && !started
      ensures !old(started) ==> marks == old(marks) && count == old(count) && gl.live == old(gl.live)
      ensures old(started) ==> count == old(count) + 1 && old(count) < |marks|
      ensures old(started) ==> marks == Marked(old(marks), old(count), "end time", marks[old(count)].qo, available, value)
      ensures old(started) && old(count) < |old(marks)| ==> gl.live == old(gl.live)
      ensures old(gl.live) <= gl.live && old(Owned()) <= Owned()
      ensures gl.live - old(gl.live) == Owned() - old(Owned())
    {
      if started {
        Mark(gl, "end time", available, value);
        started := false;
      }
    }
  }

  /** The names a frame of `start`, `mark("draw")`, `stop` gives the entries it creates. */
  const FRAME_NAMES: seq<string> := ["start time", "draw", "end time"]

  /**
    The entries after the three marks of a frame: existing entries keep their name and query,
    missing ones are created in order and named after their mark.
  */
  lemma FrameMarks(m0: seq<Stamp>, q1: nat, q2: nat, q3: nat, available: bool, value: nat)
    ensures var m3 := Marked(Marked(Marked(m0, 0, FRAME_NAMES[0], q1, available, value), 1, FRAME_NAMES[1], q2, available, value),
                             2, FRAME_NAMES[2], q3, available, value);
      && |m3| == (if |m0| < 3 then 3 else |m0|)
      && (forall i :: 0 <= i < |m0| ==> m3[i].name == m0[i].name && m3[i].qo == m0[i].qo)
      && (forall i :: |m0| <= i < |m3| ==> m3[i].name == FRAME_NAMES[i])
  {
  }

  /**
    One frame of `start`, `mark("draw")`, `stop`. Entries that exist keep their name and
    query; missing ones are created in order; a list that already has three entries is
    reused and no query is created.
  */
  method DrawFrame(gl: Gl, t: GpuTimestamps, available: bool, value: nat)
    requires t.Valid(gl) && !t.started
    modifies t`marks, t`count, t`started, gl`live, gl`next
    ensures t.Valid(gl) && !t.started && t.count == 3
    ensures |t.marks| == if |old(t.marks)| < 3 then 3 else |old(t.marks)|
    ensures forall i :: 0 <= i < |old(t.marks)| ==> t.marks[i].name == old(t.marks)[i].name && t.marks[i].qo == old(t.marks)[i].qo
    ensures forall i :: |old(t.marks)| <= i < |t.marks| ==> t.marks[i].name == FRAME_NAMES[i]
    ensures 3 <= |old(t.marks)| ==> gl.live == old(gl.live)
    ensures old(gl.live) <= gl.live
    ensures gl.live - old(gl.live) == t.Owned() - old(t.Owned())
  {
    t.Start(gl, available, value);
    ghost var live1, owned1, q1 := gl.live, t.Owned(), t.marks[0].qo;
    t.Mark(gl, FRAME_NAMES[1], available, value);
    GrowthCompose(old(gl.live), live1, gl.live, old(t.Owned()), owned1, t.Owned());
    ghost var live2, owned2, q2 := gl.live, t.Owned(), t.marks[1].qo;
    t.Stop(gl, available, value);
    GrowthCompose(old(gl.live), live2, gl.live, old(t.Owned()), owned2, t.Owned());
    FrameMarks(old(t.marks), q1, q2, t.marks[2].qo, available, value);
  }

  /**
    Two frames from an empty list: the first creates the three entries, the second reuses
    them, so exactly the three queries the list holds were created.
  */
  method SecondFrameReuses(gl: Gl, t: GpuTimestamps, available: bool, value: nat)
    requires t.Valid(gl) && !t.started && t.marks == []
    modifies t`marks, t`count, t`started, gl`live, gl`next
    ensures |t.marks| == 3 && t.marks[0].name == "start time" && t.marks[1].name == "draw" && t.marks[2].name == "end time"
    ensures gl.live == old(gl.live) + t.Owned()
  {
    DrawFrame(gl, t, available, value);
    ghost var first := t.marks;
    DrawFrame(gl, t, available, value);
    assert forall i :: 0 <= i < 3 ==> t.marks[i].qo == first[i].qo;
    assert gl.live == old(gl.live) + (gl.live - old(gl.live));
  }
}
