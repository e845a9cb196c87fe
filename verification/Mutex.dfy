/** The interrupt-disabling mutex as one CPU uses it. The interleaved protocol is in MutexProtocol. */
module Mutexes {

  /** The interrupt flag of the executing CPU. */
  class Cpu {
    var interrupts: bool

    constructor (enabled: bool)
      ensures interrupts == enabled
    {
      interrupts := enabled;
    }
  }

  datatype MutexGuard<T> = MutexGuard(mutex: Mutex<T>, interruptsWereEnabled: bool)

  class Mutex<T> {
    var locked: bool
    var data: T

    constructor (value: T)
      ensures !locked && data == value
    {
      locked := false;
      data := value;
    }

    /** The atomic compare_exchange(false, true). */
    method CompareExchange() returns (ok: bool)
      modifies this`locked
      ensures ok == !old(locked) && locked
    {
      ok := !locked;
      locked := true;
    }

    /** Spins until the exchange succeeds. With interrupts off and no other CPU, a mutex that is
        already held would spin forever, so a caller must not hold it: then one exchange is enough. */
    method Lock(cpu: Cpu) returns (g: MutexGuard<T>)
      requires !locked
      modifies this`locked, cpu`interrupts
      ensures locked && !cpu.interrupts
      ensures g == MutexGuard(this, old(cpu.interrupts))
    {
      var interruptsEnabled := cpu.interrupts;
      cpu.interrupts := false;
      var ok := CompareExchange();
      assert ok;
      g := MutexGuard(this, interruptsEnabled);
    }

    /** Never blocks; on failure the interrupt flag is as before. */
    method TryLock(cpu: Cpu) returns (acquired: bool, g: MutexGuard<T>)
      modifies this`locked, cpu`interrupts
      ensures acquired == !old(locked) && locked
      ensures acquired ==> !cpu.interrupts && g == MutexGuard(this, old(cpu.interrupts))
      ensures !acquired ==> cpu.interrupts == old(cpu.interrupts)
    {
      var interruptsEnabled := cpu.interrupts;
      cpu.interrupts := false;
      acquired := CompareExchange();
      g := MutexGuard(this, interruptsEnabled);
      if !acquired && interruptsEnabled {
        cpu.interrupts := true;
      }
    }

    /** Dropping the guard. */
    method Release(cpu: Cpu, g: MutexGuard<T>)
      requires locked && g.mutex == this
      modifies this`locked, cpu`interrupts
      ensures !locked
      ensures cpu.interrupts == (old(cpu.interrupts) || g.interruptsWereEnabled)
    {
      locked := false;
      if g.interruptsWereEnabled {
        cpu.interrupts := true;
      }
    }

    /** Writing through the guard. */
    method Store(g: MutexGuard<T>, value: T)
      requires locked && g.mutex == this
      modifies this`data
      ensures data == value
    {
      data := value;
    }
  }
}
