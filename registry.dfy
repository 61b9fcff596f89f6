/**
 * The registry of REST handler initialisers that the server builds its routes from.
 * A name may be registered once; registering it again panics.
 */
module Registry {
  import opened Wrappers

  /** Registering `name` in `m`: `None` stands for the panic on a name already present. */
  function Registered<H>(m: map<string, H>, name: string, init: H): (r: Option<map<string, H>>)
    ensures r.None? <==> name in m
    ensures r.Some? ==> r.value.Keys == m.Keys + {name} && r.value[name] == init
    ensures r.Some? ==> forall other | other in m :: r.value[other] == m[other]
  {
    if name in m then None else Some(m[name := init])
  }

  /** Two registrations under one name: the second always panics, whatever the first held. */
  lemma SecondRegistrationPanics<H>(m: map<string, H>, name: string, first: H, second: H)
    requires Registered(m, name, first).Some?
    ensures Registered(Registered(m, name, first).value, name, second).None?
  {
  }

  /** Registrations under different names commute. */
  lemma RegistrationsCommute<H>(m: map<string, H>, a: string, x: H, b: string, y: H)
    requires a != b && a !in m && b !in m
    ensures Registered(Registered(m, a, x).value, b, y) == Registered(Registered(m, b, y).value, a, x)
  {
    var ab := Registered(Registered(m, a, x).value, b, y).value;
    var ba := Registered(Registered(m, b, y).value, a, x).value;
    assert ab.Keys == ba.Keys;
    assert forall k | k in ab :: ab[k] == ba[k];
    assert ab == ba;
  }

  class HandlerRegistry<H> {
    var inits: map<string, H>

    /** The registry starts empty. */
    constructor()
      ensures inits == map[]
    {
      inits := map[];
    }

    /** Adds `init` under `name`; a name already present panics and leaves the registry as it was. */
    method Register(name: string, init: H) returns (panicked: bool)
      modifies this
      ensures panicked <==> Registered(old(inits), name, init).None?
      ensures panicked ==> inits == old(inits)
      ensures !panicked ==> inits == Registered(old(inits), name, init).value
    {
      if name in inits {
        return true;
      }
      inits := inits[name := init];
      return false;
    }
  }
}
