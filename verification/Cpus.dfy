/** What the models of blocking share: who may hold a spin lock, and what the scheduler of a CPU is doing. */
module Cpus {
  datatype Holder = Nobody | Proc(i: nat) | Sched(c: nat)

  datatype Cpu =
    | Idle          // scheduler, no lock held
    | Got(j: nat)   // scheduler has j's lock
    | On(j: nat)    // runs j
    | Back(j: nat)  // scheduler again, still with j's lock
}
