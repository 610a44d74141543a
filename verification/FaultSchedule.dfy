/** When a transaction's file operations run, and which of them a fault hits. Every operation takes one
    tick; a schedule says which ticks fail. */
module FaultSchedule {
  import opened Wrappers

  type Schedule = nat -> bool

  /** Some operation between two ticks is hit. */
  ghost predicate Faulted(fails: Schedule, from: nat, to: nat) {
    exists k :: from <= k < to && fails(k)
  }

  /** The operations planned for the ticks up to `to` end with the first one that is hit; `tick` is behind it. */
  ghost predicate Stopped(fails: Schedule, from: nat, to: nat, tick: nat) {
    from < tick <= to && fails(tick - 1) && !Faulted(fails, from, tick - 1)
  }

  /** The operations planned for the ticks up to `to` have all run. */
  ghost predicate Done(fails: Schedule, from: nat, to: nat, tick: nat) {
    tick == to && !Faulted(fails, from, to)
  }

  /** The first tick that fails. */
  function FirstFault(fails: Schedule, from: nat, to: nat): (r: Option<nat>)
    ensures r.Some? ==> from <= r.value < to && fails(r.value) && !Faulted(fails, from, r.value)
    ensures r.None? <==> !Faulted(fails, from, to)
    decreases if from < to then to - from else 0
  {
    if from >= to then None
    else if fails(from) then Some(from)
    else FirstFault(fails, from + 1, to)
  }

  lemma {:induction false} StopIsFirstFault(fails: Schedule, from: nat, to: nat, tick: nat)
    requires Stopped(fails, from, to, tick)
    ensures FirstFault(fails, from, to) == Some(tick - 1)
  {
    var first := FirstFault(fails, from, to).value;
    assert fails(first) && fails(tick - 1);
  }

  /** How far a validated transaction comes: the rollback artifact is not written; an undo starts at a
      tick; every target is patched and a read of the result fails; it completes. */
  datatype Course = NotPrepared | Undone(from: nat) | ResultUnread | Completed

  /** With `n` targets of which the first `fitting` patches fit, and from tick `start`: the directory, a
      read of every preimage and the rollback artifact; read, write and replace for every target; a
      read of every result; the receipt; once more a read of every result. A patch that does not fit
      ends the loop behind the read of its target. */
  function CourseOf(fails: Schedule, start: nat, n: nat, fitting: nat): Course
    requires fitting <= n
  {
    var prepared := start + 2 + n;
    var misfit := prepared + 3 * fitting + 1;
    var applied := prepared + 3 * n;
    var hashed := applied + n;
    var end := if fitting < n then misfit else hashed + 1 + n;
    match FirstFault(fails, start, end)
    case None => if fitting < n then Undone(misfit) else Completed
    case Some(fault) =>
      if fault < prepared then NotPrepared
      else if fitting < n || fault < applied || fault == hashed then Undone(fault + 1)
      else ResultUnread
  }

  /** An undo that starts at a tick is itself hit: two operations for each of the `n` targets. */
  ghost predicate UndoHit(fails: Schedule, course: Course, n: nat) {
    course.Undone? && Faulted(fails, course.from, course.from + 2 * n)
  }

  // ---------------------------------------------------------------- reading off the course

  lemma {:induction false} FirstFaultIs(fails: Schedule, from: nat, to: nat, k: nat)
    requires from <= k < to && fails(k) && !Faulted(fails, from, k)
    ensures FirstFault(fails, from, to) == Some(k)
  {
    StopIsFirstFault(fails, from, to, k + 1);
  }

  lemma {:induction false} NotPreparedCourse(fails: Schedule, start: nat, n: nat, fitting: nat, tick: nat)
    requires fitting <= n && Stopped(fails, start, start + 2 + n, tick)
    ensures CourseOf(fails, start, n, fitting) == NotPrepared
  {
    FirstFaultIs(fails, start, if fitting < n then start + 3 + n + 3 * fitting else start + 3 + 6 * n, tick - 1);
  }

  /** The loop ended before its end, by a fault or behind the read of the target that does not fit. */
  lemma {:induction false} UndoneCourse(fails: Schedule, start: nat, n: nat, fitting: nat, tick: nat)
    requires fitting <= n && !Faulted(fails, start, start + 2 + n)
    requires
      var applying := start + 2 + n;
      var planned := applying + 3 * fitting + (if fitting < n then 1 else 0);
      Stopped(fails, applying, planned, tick) || (fitting < n && Done(fails, applying, planned, tick))
    ensures CourseOf(fails, start, n, fitting) == Undone(tick)
  {
    var applying := start + 2 + n;
    var planned := applying + 3 * fitting + (if fitting < n then 1 else 0);
    if Stopped(fails, applying, planned, tick) {
      FirstFaultIs(fails, start, if fitting < n then start + 3 + n + 3 * fitting else start + 3 + 6 * n, tick - 1);
    }
  }

  lemma {:induction false} CompletedCourse(fails: Schedule, start: nat, n: nat)
    requires !Faulted(fails, start, start + 2 + 4 * n) && !Faulted(fails, start + 2 + 4 * n, start + 3 + 6 * n)
    ensures CourseOf(fails, start, n, n) == Completed
  {
  }

  /** A transaction that begins at tick `start`, with `n` targets of which the first `fitting` patches fit,
      is left by an exception. When all fit: the first fault hits one of the two rounds of reads of the
      result, or it hits the loop or the receipt and a further fault hits the undo that starts behind it.
      Otherwise: a fault hits the undo, which starts behind the first fault of the loop, or behind the read
      of the target that does not fit. */
  ghost predicate LeftByException(fails: Schedule, start: nat, n: nat, fitting: nat)
    requires fitting <= n
  {
    var applying := start + 2 + n;
    if fitting == n then
      var hashing, receipt, end := start + 2 + 4 * n, start + 2 + 5 * n, start + 3 + 6 * n;
      var first := FirstFault(fails, start, end);
      first.Some? &&
      var fault := first.value;
      || hashing <= fault < receipt
      || receipt < fault
      || ((applying <= fault < hashing || fault == receipt) && Faulted(fails, fault + 1, fault + 1 + 2 * n))
    else
      var misfit := applying + 3 * fitting + 1;
      var first := FirstFault(fails, start, misfit);
      var from := if first.Some? then first.value + 1 else misfit;
      (first.Some? ==> applying <= first.value) && Faulted(fails, from, from + 2 * n)
  }

  lemma {:induction false} ExceptionWindows(fails: Schedule, start: nat, n: nat, fitting: nat)
    requires fitting <= n
    ensures LeftByException(fails, start, n, fitting) <==>
      var course := CourseOf(fails, start, n, fitting); course == ResultUnread || UndoHit(fails, course, n)
  {
  }
}
