/** The C heap: which blocks are live, which have been freed, and an oracle that decides which calls to
    malloc return NULL. Freeing a block that is not live is a broken precondition,
    so a verified caller frees no block twice. */
module Memory {

  datatype Ptr = Null | Block(id: nat)

  /** The block a pointer designates, if any. */
  function Target(p: Ptr): set<nat> {
    if p.Block? then {p.id} else {}
  }

  /** Going from `before` to `after` added exactly the blocks of `ps`, all different. */
  ghost predicate Claims(ps: seq<Ptr>, before: set<nat>, after: set<nat>) {
    && before <= after
    && (forall i :: 0 <= i < |ps| ==> ps[i].Block? && ps[i].id in after && ps[i].id !in before)
    && (forall i, j :: 0 <= i < j < |ps| ==> ps[i] != ps[j])
    && (forall b :: b in after ==> b in before || Block(b) in ps)
  }

  lemma ClaimOne(ps: seq<Ptr>, p: Ptr, before: set<nat>, middle: set<nat>, after: set<nat>)
    requires Claims(ps, before, middle)
    requires p.Block? && p.id !in middle && after == middle + {p.id}
    ensures Claims(ps + [p], before, after)
  {
    var qs := ps + [p];
    assert qs[|ps|] == p;
    forall b | b in after ensures b in before || Block(b) in qs {
      if b in middle && b !in before {
        var i :| 0 <= i < |ps| && ps[i] == Block(b);
        assert qs[i] == Block(b);
      }
    }
  }

  /** Some block number lies above any given finite set. */
  lemma SpareBlock(used: set<nat>) returns (id: nat)
    ensures forall b :: b in used ==> b < id
  {
    id := 0;
    var rest := used;
    while rest != {}
      invariant rest <= used
      invariant forall b :: b in used && b !in rest ==> b < id
    {
      var b :| b in rest;
      rest := rest - {b};
      id := if b < id then id else b + 1;
    }
  }

  /** Every one of the `n` calls from number `from` on succeeds. */
  ghost predicate Granted(fails: nat -> bool, from: nat, n: nat) {
    forall c :: from <= c < from + n ==> !fails(c)
  }

  /** No call from number `from` on fails. */
  ghost predicate NoFailureFrom(fails: nat -> bool, from: nat) {
    forall c :: from <= c ==> !fails(c)
  }

  lemma GrantOneMore(fails: nat -> bool, from: nat, n: nat)
    requires Granted(fails, from, n) && !fails(from + n)
    ensures Granted(fails, from, n + 1)
  {
  }

  lemma NothingYet(fails: nat -> bool, from: nat, live: set<nat>)
    ensures Granted(fails, from, 0) && Claims([], live, live)
  {
  }

  class Heap {
    var live: set<nat>
    var retired: set<nat>
    var calls: nat
    const fails: nat -> bool

    constructor (fails: nat -> bool)
      ensures live == retired == {} && calls == 0 && this.fails == fails
    {
      live, retired, calls := {}, {}, 0;
      this.fails := fails;
    }

    /** A freed block never comes back. */
    ghost predicate Valid()
      reads this
    {
      live !! retired
    }

    /** The k-th call overall returns NULL exactly when the oracle says so. */
    method Malloc() returns (p: Ptr)
      requires Valid()
      modifies this
      ensures Valid() && retired == old(retired)
      ensures calls == old(calls) + 1
      ensures p.Null? <==> fails(old(calls))
      ensures live == old(live) + Target(p)
      ensures p.Block? ==> p.id !in old(live)
    {
      if fails(calls) {
        p := Null;
      } else {
        ghost var spare := SpareBlock(live + retired);
        assert spare !in live + retired;
        var id: nat :| id !in live + retired;
        live := live + {id};
        p := Block(id);
      }
      calls := calls + 1;
    }

    /** free(NULL) does nothing. */
    method Free(p: Ptr)
      requires Valid()
      requires p.Block? ==> p.id in live
      modifies this`live, this`retired
      ensures Valid() && retired == old(retired) + Target(p)
      ensures live == old(live) - Target(p)
    {
      if p.Block? {
        live, retired := live - {p.id}, retired + {p.id};
      }
    }

    /** The rollback loops: free a list of blocks front to back. */
    method FreeEach(ps: seq<Ptr>, ghost before: set<nat>)
      requires Valid() && Claims(ps, before, live)
      modifies this`live, this`retired
      ensures Valid() && old(retired) <= retired
      ensures live == before
    {
      var j := 0;
      while j < |ps|
        invariant j <= |ps|
        invariant Valid() && old(retired) <= retired
        invariant Claims(ps[j..], before, live)
      {
        ghost var rest := ps[j..];
        Free(ps[j]);
        assert ps[j + 1..] == rest[1..];
        assert forall b :: b in live ==> b in before || Block(b) in rest[1..];
        j := j + 1;
      }
      assert forall b :: b in live ==> b in before;
    }
  }
}
