/**
  Socket deadlines as server and client set them: every setter looks at a
  poison mark first, under a mutex (managesieveserver/conn.go).
 */
module Deadlines {
  datatype Deadline = Unset | At(time: int) | Past

  datatype Socket = Socket(poisoned: bool, read: Deadline, write: Deadline)

  function ArmRead(s: Socket, d: Deadline): Socket {
    if s.poisoned then s else s.(read := d)
  }

  function ArmBoth(s: Socket, d: Deadline): Socket {
    if s.poisoned then s else s.(read := d, write := d)
  }

  /** Permanently expires the read deadline; writes are unaffected. */
  function Kick(s: Socket): Socket {
    s.(poisoned := true, read := Past)
  }

  /** A poisoned socket never reads again. */
  predicate Settled(s: Socket) {
    s.poisoned ==> s.read == Past
  }

  /** The deadline state of one connection; each method is one critical section. */
  class Guarded {
    var poisoned: bool
    var read: Deadline
    var write: Deadline

    ghost function Value(): Socket
      reads this
    {
      Socket(poisoned, read, write)
    }

    constructor ()
      ensures Value() == Socket(false, Unset, Unset)
    {
      poisoned, read, write := false, Unset, Unset;
    }

    method SetReadDeadline(d: Deadline)
      requires Settled(Value())
      modifies this
      ensures Value() == ArmRead(old(Value()), d) && Settled(Value())
      ensures poisoned == old(poisoned) && write == old(write) && read == if poisoned then Past else d
    {
      if poisoned {
        return;
      }
      read := d;
    }

    method SetDeadline(d: Deadline)
      requires Settled(Value())
      modifies this
      ensures Value() == ArmBoth(old(Value()), d) && Settled(Value())
      ensures poisoned == old(poisoned) && read == if poisoned then Past else d
      ensures write == if poisoned then old(write) else d
    {
      if poisoned {
        return;
      }
      read, write := d, d;
    }

    method ForceReadUnblock()
      modifies this
      ensures Value() == Kick(old(Value())) && Settled(Value())
      ensures poisoned && read == Past && write == old(write)
    {
      poisoned := true;
      read := Past;
    }
  }

  /** The server's part of Close and of connection set-up: the set of connections it owns. */
  class Registry {
    var conns: set<Guarded>
    var cancelled: bool

    constructor ()
      ensures conns == {} && !cancelled
    {
      conns, cancelled := {}, false;
    }

    method RegisterConn(c: Guarded)
      modifies this`conns
      ensures conns == old(conns) + {c}
    {
      conns := conns + {c};
    }

    method UnregisterConn(c: Guarded)
      modifies this`conns
      ensures conns == old(conns) - {c}
    {
      conns := conns - {c};
    }

    /** Close, up to the wait: cancel, then expire the reads of every connection still owned, and of no other. */
    method Close()
      modifies this`cancelled, conns
      ensures cancelled && conns == old(conns)
      ensures forall c | c in conns :: c.Value() == Kick(old(c.Value()))
      ensures forall c | c in conns :: c.poisoned && c.read == Past && c.write == old(c.write)
    {
      cancelled := true;
      var left := conns;
      while left != {}
        invariant left <= conns && cancelled && conns == old(conns)
        invariant forall c | c in left :: c.Value() == old(c.Value())
        invariant forall c | c in conns - left :: c.Value() == Kick(old(c.Value()))
        decreases left
      {
        var c :| c in left;
        c.ForceReadUnblock();
        left := left - {c};
      }
      assert conns - left == conns;
    }
  }
}
