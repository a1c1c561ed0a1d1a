/**
 * The lazily built module-level singletons of the code base
 * (`_editorial_instance`, `_log_manager`, `_config`): a global that is `None`
 * until the first getter call constructs the instance.
 */
module Singleton {
  import opened Wrappers

  class Lazy<T> {
    var instance: Option<T>

    constructor ()
      ensures instance == None
    {
      instance := None;
    }

    /**
     * The getter: `built` is what the constructor would produce on this call.
     * It is used only when no instance exists yet; afterwards the stored one is returned.
     */
    method Get(built: T) returns (v: T)
      modifies this
      ensures old(instance).Some? ==> v == old(instance).value && instance == old(instance)
      ensures old(instance).None? ==> v == built && instance == Some(built)
    {
      if instance.None? {
        instance := Some(built);
      }
      v := instance.value;
    }
  }

  /** Two getter calls return the same instance, whatever the second construction would have built. */
  method GetTwiceSame<T>(cell: Lazy<T>, first: T, second: T) returns (a: T, b: T)
    modifies cell
    ensures a == b
    ensures old(cell.instance).None? ==> a == first
  {
    a := cell.Get(first);
    b := cell.Get(second);
  }
}
