/**
 The reader/writer lock object: its five fields and the critical sections that
 update them. Each function below is what one stay inside `gate` does; the class
 is the same code as field updates, proved against those functions.
*/
module SrwLock {

  datatype Lock = Lock(
    readers: int,
    writerActive: int,
    writersWaiting: int,
    canRead: bool,
    canWrite: bool)

  /** Whether the section took the lock, and the fields it leaves behind. */
  datatype Attempt = Attempt(acquired: bool, lock: Lock)

  const Fresh := Lock(0, 0, 0, true, true)

  /** The loop test of the writer and what follows it, up to leaving `gate`. */
  function RetryExclusive(l: Lock): Attempt {
    if l.writerActive != 0 || l.readers != 0 then
      Attempt(false, l.(canWrite := false))
    else
      Attempt(true, l.(writersWaiting := l.writersWaiting - 1, writerActive := 1, canWrite := false))
  }

  function EnterExclusive(l: Lock): Attempt {
    RetryExclusive(l.(writersWaiting := l.writersWaiting + 1, canRead := false))
  }

  function TryExclusive(l: Lock): Attempt {
    if l.writerActive == 0 && l.readers == 0 then
      Attempt(true, l.(writerActive := 1, canWrite := false, canRead := false))
    else
      Attempt(false, l)
  }

  function ReleaseExclusive(l: Lock): Lock {
    l.(writerActive := 0, canWrite := true, canRead := l.canRead || l.writersWaiting == 0)
  }

  function AdmitReader(l: Lock): Lock {
    l.(readers := l.readers + 1, canWrite := l.canWrite && l.readers + 1 != 1)
  }

  /** The reader's loop body and exit; the first entry and every retry are the same code. */
  function EnterShared(l: Lock): Attempt {
    if l.writerActive != 0 || l.writersWaiting != 0 then
      Attempt(false, l.(canRead := false))
    else
      Attempt(true, AdmitReader(l))
  }

  function TryShared(l: Lock): Attempt {
    if l.writerActive == 0 && l.writersWaiting == 0 then Attempt(true, AdmitReader(l)) else Attempt(false, l)
  }

  function ReleaseShared(l: Lock): Lock {
    var left := if l.readers > 0 then l.readers - 1 else l.readers;
    l.(readers := left,
       canWrite := l.canWrite || left == 0,
       canRead := l.canRead || (left == 0 && l.writersWaiting == 0))
  }

  /** What the two events mean whenever nobody is inside `gate`. */
  predicate EventsAgree(l: Lock) {
    && (l.canWrite <==> l.writerActive == 0 && l.readers == 0)
    && (l.canRead <==> l.writerActive == 0 && l.writersWaiting == 0)
  }

  /** What the fields mean to callers who release only what they hold. */
  predicate Sound(l: Lock) {
    && EventsAgree(l) && l.readers >= 0 && l.writersWaiting >= 0
    && 0 <= l.writerActive <= 1 && (l.writerActive == 1 ==> l.readers == 0)
  }

  /** Each section takes the lock exactly when its event was set, and says when it leaves the fields sound. */
  class SrwState {
    var readers: int
    var writerActive: int
    var writersWaiting: int
    var canRead: bool
    var canWrite: bool

    ghost function Value(): Lock
      reads this
    {
      Lock(readers, writerActive, writersWaiting, canRead, canWrite)
    }

    constructor ()
      ensures Value() == Fresh && Sound(Value())
    {
      readers, writerActive, writersWaiting := 0, 0, 0;
      canRead, canWrite := true, true;
    }

    /** First stay in `gate` of an exclusive acquire. */
    method BeginExclusive() returns (acquired: bool)
      modifies this
      ensures Attempt(acquired, Value()) == EnterExclusive(old(Value()))
      ensures old(Sound(Value())) ==> Sound(Value()) && acquired == old(canWrite)
    {
      writersWaiting := writersWaiting + 1;
      canRead := false;
      acquired := AgainExclusive();
    }

    /** Every later stay, after `canWrite` let the writer through. */
    method AgainExclusive() returns (acquired: bool)
      modifies this
      ensures Attempt(acquired, Value()) == RetryExclusive(old(Value()))
      ensures old(Sound(Value())) ==> acquired == old(canWrite)
      ensures old(Sound(Value())) ==> (Sound(Value()) <==> old(writersWaiting > 0 || !canWrite))
    {
      if writerActive != 0 || readers != 0 {
        canWrite := false;
        return false;
      }
      writersWaiting := writersWaiting - 1;
      writerActive := 1;
      canWrite := false;
      return true;
    }

    method TryBeginExclusive() returns (acquired: bool)
      modifies this
      ensures Attempt(acquired, Value()) == TryExclusive(old(Value()))
      ensures old(Sound(Value())) ==> Sound(Value()) && acquired == old(canWrite)
    {
      acquired := false;
      if writerActive == 0 && readers == 0 {
        writerActive := 1;
        canWrite := false;
        canRead := false;
        acquired := true;
      }
    }

    method EndExclusive()
      modifies this
      ensures Value() == ReleaseExclusive(old(Value()))
      ensures old(Sound(Value())) ==> (Sound(Value()) <==> old(readers == 0))
    {
      writerActive := 0;
      canWrite := true;
      if writersWaiting == 0 { canRead := true; }
    }

    method BeginShared() returns (acquired: bool)
      modifies this
      ensures Attempt(acquired, Value()) == EnterShared(old(Value()))
      ensures old(Sound(Value())) ==> Sound(Value()) && acquired == old(canRead)
    {
      if writerActive != 0 || writersWaiting != 0 {
        canRead := false;
        return false;
      }
      readers := readers + 1;
      if readers == 1 { canWrite := false; }
      return true;
    }

    method TryBeginShared() returns (acquired: bool)
      modifies this
      ensures Attempt(acquired, Value()) == TryShared(old(Value()))
      ensures old(Sound(Value())) ==> Sound(Value()) && acquired == old(canRead)
    {
      acquired := false;
      if writerActive == 0 && writersWaiting == 0 {
        readers := readers + 1;
        if readers == 1 { canWrite := false; }
        acquired := true;
      }
    }

    method EndShared()
      modifies this
      ensures Value() == ReleaseShared(old(Value()))
      ensures old(Sound(Value())) ==> (Sound(Value()) <==> old(readers > 0 || canWrite))
    {
      if readers > 0 { readers := readers - 1; }
      if readers == 0 {
        canWrite := true;
        if writersWaiting == 0 { canRead := true; }
      }
    }
  }
}
