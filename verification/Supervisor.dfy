/** The supervisor's death mailbox: the state transformers of supervisor.c. */
module Supervisor {
  import opened Base
  import opened State
  import opened Threads

  function NoteDeath(s: Kernel, slot: nat): (r: Result<Kernel>)
    requires Fits(s) && slot < THREAD_COUNT
    ensures r.Ok? ==> Fits(r.value)
  {
    var s1 := if s.waiter == slot then s.(waiter := NONE) else s;
    if s1.waiter != NONE then
      var woken :- Wake(s1, s1.waiter, slot);
      Ok(woken.(waiter := NONE, resched := true))
    else
      Ok(s1.(death := slot))
  }

  function Wait(s: Kernel, tf: TrapFrame): (r: Result<(Kernel, Leave)>)
    requires Fits(s)
    ensures r.Ok? ==> Fits(r.value.0) && r.value.0.build == s.build
  {
    var slot :- CurrentUserSlot(s);
    if slot != TASK_C then Ok((s, ToUser(MINUS_ONE)))
    else if s.death != NONE then Ok((s.(death := NONE), ToUser(s.death % 0x1_0000_0000)))
    else if s.waiter != NONE then Ok((s, ToUser(MINUS_ONE)))
    else
      var s1 :- Redirect(s.(waiter := slot), tf, NotifyBlock);
      Ok((s1, ToKernel))
  }

  function RestartCall(s: Kernel, slot: u64): (r: Result<(Kernel, Leave)>)
    requires Fits(s)
    ensures r.Ok? ==> Fits(r.value.0) && r.value.0.build == s.build
  {
    var cur :- CurrentUserSlot(s);
    if cur != TASK_C || slot != TASK_B then Ok((s, ToUser(MINUS_ONE)))
    else
      var (s1, rc) := Restart(s, slot);
      Ok((s1, ToUser(if rc == 0 then 0 else MINUS_ONE)))
  }
}
