/** The database connection that a tool holds while one of its modes runs.

    `committed` is what other connections (and the next tool) see, `working` is what
    this connection sees.  `healthy` is the number of further calls that succeed: the
    first call made with `healthy == 0` reports an error and changes nothing.  Every mode
    stops at the first error it meets, so quantifying over `healthy` quantifies over
    every point at which the database can fail. */
module Transactions {

  class Session<D> {
    var committed: D
    var working: D
    var open: bool
    var healthy: nat

    /** No transaction is open, so both views of the data agree. */
    ghost predicate Idle()
      reads this
    {
      !open && working == committed
    }

    constructor (d: D, calls: nat)
      ensures Idle() && committed == d && healthy == calls
    {
      committed, working, open, healthy := d, d, false, calls;
    }

    /** A call that changes no row: a SELECT. */
    method Query() returns (ok: bool)
      modifies this`healthy
      ensures ok == (old(healthy) > 0)
      ensures healthy == if ok then old(healthy) - 1 else 0
    {
      ok := healthy > 0;
      if ok {
        healthy := healthy - 1;
      }
    }

    /** START TRANSACTION.  MySQL has no nested transactions: if one is already open,
        starting another commits it. */
    method Begin() returns (ok: bool)
      modifies this
      ensures ok == (old(healthy) > 0)
      ensures healthy == if ok then old(healthy) - 1 else 0
      ensures working == old(working)
      ensures ok ==> open && committed == old(working)
      ensures !ok ==> open == old(open) && committed == old(committed)
    {
      ok := healthy > 0;
      if ok {
        healthy := healthy - 1;
        committed, open := working, true;
      }
    }

    /** An INSERT, UPDATE or DELETE that turns the data into `d`.  Outside a transaction
        the connection runs with autocommit on. */
    method Execute(d: D) returns (ok: bool)
      modifies this
      ensures ok == (old(healthy) > 0)
      ensures healthy == if ok then old(healthy) - 1 else 0
      ensures open == old(open)
      ensures working == if ok then d else old(working)
      ensures committed == if ok && !old(open) then d else old(committed)
    {
      ok := healthy > 0;
      if ok {
        healthy := healthy - 1;
        working := d;
        if !open {
          committed := d;
        }
      }
    }

    method Commit() returns (ok: bool)
      modifies this
      ensures ok == (old(healthy) > 0)
      ensures healthy == if ok then old(healthy) - 1 else 0
      ensures working == old(working)
      ensures committed == if ok then old(working) else old(committed)
      ensures open == (old(open) && !ok)
    {
      ok := healthy > 0;
      if ok {
        healthy := healthy - 1;
        committed, open := working, false;
      }
    }

    /** The modes only log a failed rollback, because the server discards an open
        transaction anyway when the tool disconnects. */
    method Rollback()
      modifies this
      ensures committed == old(committed)
      ensures old(healthy) > 0 ==> Idle()
      ensures old(healthy) == 0 ==> working == old(working) && open == old(open)
    {
      if healthy > 0 {
        healthy := healthy - 1;
        working, open := committed, false;
      }
    }

    /** The tool exits: whatever was not committed is lost. */
    method Exit()
      modifies this
      ensures Idle() && committed == old(committed)
    {
      working, open := committed, false;
    }
  }
}
