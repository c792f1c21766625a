/**
  `QueryObject<TARGET>`: a GPU query handle with a four-state lifecycle. A query is issued
  either by `begin`/`end` (a time-elapsed query) or by `mark` (a timestamp); `getResult`
  collects the answer once the driver says it is available.
*/
module Queries {
  import opened Driver

  datatype Status = Empty | Idle | Running | Pending

  /** What can happen to one query object, including the driver's availability answer on a poll. */
  datatype QueryOp = Begin | End | Mark | Poll(available: bool) | Cleanup | Allocate

  /** The status after `op`. */
  function Step(s: Status, op: QueryOp): (r: Status)
    // `begin`, `end` and `mark` each move exactly one state, and leave every other one alone
    ensures op == Begin ==> (if s == Idle then r == Running else r == s)
    ensures op == End ==> (if s == Running then r == Pending else r == s)
    ensures op == Mark ==> (if s == Idle then r == Pending else r == s)
    // a poll that collects nothing leaves the status alone
    ensures op.Poll? && !Collects(s, op) ==> r == s
    ensures Collects(s, op) ==> s == Pending && r == Idle
    // `cleanup` and `allocate` both end in IDLE, never in EMPTY
    ensures op == Cleanup || op == Allocate ==> r == Idle
  {
    match op
    case Begin => if s == Idle then Running else s
    case End => if s == Running then Pending else s
    case Mark => if s == Idle then Pending else s
    case Poll(available) => if s == Pending && available then Idle else s
    case Cleanup => Idle
    case Allocate => Idle
  }

  /** Whether `op` is a poll that returns a result. */
  predicate Collects(s: Status, op: QueryOp)
  {
    op.Poll? && s == Pending && op.available
  }

  /** Whether `op` issues a query to the driver (a transition into PENDING). */
  predicate Issues(s: Status, op: QueryOp)
  {
    (op == End && s == Running) || (op == Mark && s == Idle)
  }

  /** The status after a sequence of operations. */
  function Run(s: Status, ops: seq<QueryOp>): Status
    decreases ops
  {
    if ops == [] then s else Run(Step(s, ops[0]), ops[1..])
  }

  /** How many polls of `ops` return a result. */
  function Collected(s: Status, ops: seq<QueryOp>): nat
    decreases ops
  {
    if ops == [] then 0 else (if Collects(s, ops[0]) then 1 else 0) + Collected(Step(s, ops[0]), ops[1..])
  }

  /** How many operations of `ops` issue a query. */
  function Issued(s: Status, ops: seq<QueryOp>): nat
    decreases ops
  {
    if ops == [] then 0 else (if Issues(s, ops[0]) then 1 else 0) + Issued(Step(s, ops[0]), ops[1..])
  }

  function PendingCount(s: Status): nat
  {
    if s == Pending then 1 else 0
  }

  /**
    Every result returned belongs to a distinct issued query: the results collected, plus the
    query still outstanding at the end, never exceed the queries issued plus the one outstanding
    at the start.
  */
  lemma {:induction false} CollectedAtMostIssued(s: Status, ops: seq<QueryOp>)
    ensures Collected(s, ops) + PendingCount(Run(s, ops)) <= Issued(s, ops) + PendingCount(s)
    decreases ops
  {
    if ops != [] {
      CollectedAtMostIssued(Step(s, ops[0]), ops[1..]);
    }
  }

  /** Once created, a query object never goes back to EMPTY. */
  lemma {:induction false} NeverEmptyAgain(s: Status, ops: seq<QueryOp>)
    requires s != Empty
    ensures Run(s, ops) != Empty
    decreases ops
  {
    if ops != [] {
      NeverEmptyAgain(Step(s, ops[0]), ops[1..]);
    }
  }

  /** Without `cleanup` or `allocate`, an EMPTY query object stays EMPTY and returns nothing. */
  lemma {:induction false} EmptyStaysEmpty(ops: seq<QueryOp>)
    requires forall i :: 0 <= i < |ops| ==> ops[i] != Cleanup && ops[i] != Allocate
    ensures Run(Empty, ops) == Empty && Collected(Empty, ops) == 0
  {
    if ops != [] {
      EmptyStaysEmpty(ops[1..]);
    }
  }

  /** A time-elapsed round: begin, end, then a poll that finds the result, gives exactly one result and ends IDLE. */
  lemma BeginEndPollRound()
    ensures Run(Idle, [Begin, End, Poll(true)]) == Idle
    ensures Collected(Idle, [Begin, End, Poll(true)]) == 1 && Issued(Idle, [Begin, End, Poll(true)]) == 1
  {
  }

  class QueryObject {
    var qo: nat
    var status: Status

    /** The handle this object must release. */
    ghost function Owned(): set<Handle>
      reads this
    {
      if qo != 0 then {Handle(Query, qo)} else {}
    }

    ghost predicate Valid(gl: Gl)
      reads this, gl
    {
      gl.Valid() && Owned() <= gl.live
    }

    constructor ()
      ensures qo == 0 && status == Empty && Owned() == {}
    {
      qo := 0;
      status := Empty;
    }

    /** The move constructor: takes over `that`'s handle and status, and leaves `that` EMPTY with no handle. */
    constructor MoveFrom(that: QueryObject)
      modifies that
      ensures qo == old(that.qo) && status == old(that.status)
      ensures that.qo == 0 && that.status == Empty
      ensures Owned() == old(that.Owned()) && that.Owned() == {}
    {
      qo := that.qo;
      status := that.status;
      that.qo := 0;
      that.status := Empty;
    }

    /** `cleanup`: deletes a non-zero handle and sets the status to IDLE (not EMPTY). */
    method Cleanup(gl: Gl)
      requires Valid(gl)
      modifies this, gl`live
      ensures Valid(gl) && Owned() == {} && qo == 0
      ensures gl.live == old(gl.live) - old(Owned())
      ensures status == Step(old(status), QueryOp.Cleanup)
    {
      if qo != 0 {
        gl.Delete(Query, qo);
        qo := 0;
      }
      status := Idle;
    }

    /** `allocate`: releases the previous handle, then creates a fresh one in state IDLE. */
    method Allocate(gl: Gl)
      requires Valid(gl)
      modifies this, gl`live, gl`next
      ensures Valid(gl) && qo != 0
      ensures gl.live == (old(gl.live) - old(Owned())) + Owned()
      ensures Handle(Query, qo) !in old(gl.live)
      ensures status == Step(old(status), QueryOp.Allocate)
    {
      Cleanup(gl);
      qo := gl.Gen(Query);
      status := Idle;
    }

    method Begin()
      modifies this`status
      ensures status == Step(old(status), QueryOp.Begin)
    {
      if status == Idle {
        status := Running;
      }
    }

    method End()
      modifies this`status
      ensures status == Step(old(status), QueryOp.End)
    {
      if status == Running {
        status := Pending;
      }
    }

    method Mark()
      modifies this`status
      ensures status == Step(old(status), QueryOp.Mark)
    {
      if status == Idle {
        status := Pending;
      }
    }

    /**
      `getResult(result)`: `available` is the driver's GL_QUERY_RESULT_AVAILABLE answer and
      `value` its GL_QUERY_RESULT; `result` is the caller's variable, written only on success.
    */
    method GetResult(available: bool, value: nat, prior: nat) returns (ok: bool, result: nat)
      modifies this`status
      ensures ok == Collects(old(status), Poll(available))
      ensures status == Step(old(status), Poll(available))
      ensures result == if ok then value else prior
    {
      if status != Pending {
        return false, prior;
      }
      if !available {
        return false, prior;
      }
      result := value;
      status := Idle;
      ok := true;
    }

    /**
      The move assignment as written: it takes over `that`'s handle and status without
      releasing its own handle first, so a live handle it held is left owned by nobody.
    */
    method MoveAssignAsWritten(gl: Gl, that: QueryObject)
      requires Valid(gl) && that.Valid(gl)
      modifies this, that
      ensures this != that ==> qo == old(that.qo) && status == old(that.status) && that.qo == 0 && that.status == Empty
      ensures this == that ==> qo == old(qo) && status == old(status)
      ensures gl.live == old(gl.live)
      ensures this != that && old(qo) != 0 && old(qo) != old(that.qo) ==>
        Handle(Query, old(qo)) in gl.live && Handle(Query, old(qo)) !in Owned() + that.Owned()
    {
      if this != that {
        qo := that.qo;
        status := that.status;
        that.qo := 0;
        that.status := Empty;
      }
    }

    /** The move assignment with the destination released first, as `AutoShader` and `SamplerObject` do. */
    method MoveAssign(gl: Gl, that: QueryObject)
      requires Valid(gl) && that.Valid(gl)
      requires this != that ==> Owned() !! that.Owned()
      modifies this, that, gl`live
      ensures Valid(gl)
      ensures this != that ==> qo == old(that.qo) && status == old(that.status) && that.qo == 0 && that.status == Empty
      ensures this != that ==> gl.live == old(gl.live) - old(Owned()) && Owned() + that.Owned() == old(that.Owned())
      ensures this == that ==> qo == old(qo) && status == old(status) && gl.live == old(gl.live)
    {
      if this != that {
        Cleanup(gl);
        qo := that.qo;
        status := that.status;
        that.qo := 0;
        that.status := Empty;
      }
    }
  }

  /**
    Two allocated queries, one move-assigned into the other with the assignment as written:
    the first one's handle stays alive and neither object holds it any more.
  */
  method MoveAssignLeak(gl: Gl) returns (a: QueryObject, b: QueryObject, leaked: Handle)
    requires gl.Valid()
    modifies gl`live, gl`next
    ensures leaked in gl.live && leaked !in a.Owned() && leaked !in b.Owned()
  {
    a := new QueryObject();
    b := new QueryObject();
    a.Allocate(gl);
    b.Allocate(gl);
    leaked := Handle(Query, a.qo);
    a.MoveAssignAsWritten(gl, b);
  }
}
