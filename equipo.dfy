/** A team (Gestor/Equipo.java): a fixed name and a roster that only grows. */
module Equipos {

  import opened Jugadores

  class Equipo {
    /** Fixed at construction; no method assigns it. */
    const nombre: string
    /** The roster, in insertion order. */
    var jugadores: seq<Jugador>

    /** A new team has the given name and no players. */
    constructor (nombre: string)
      ensures this.nombre == nombre
      ensures jugadores == []
    {
      this.nombre := nombre;
      jugadores := [];
    }

    method GetNombre() returns (r: string)
      ensures r == nombre
    {
      r := nombre;
    }

    /** Appends `j` at the end of the roster. There is no duplicate check
        and no capacity limit: every call adds one more occurrence of `j`. */
    method AgregarJugador(j: Jugador)
      modifies this
      ensures jugadores == old(jugadores) + [j]
      ensures |jugadores| == |old(jugadores)| + 1 && jugadores[|jugadores| - 1] == j
      ensures forall i :: 0 <= i < |old(jugadores)| ==> jugadores[i] == old(jugadores)[i]
      ensures multiset(jugadores)[j] == multiset(old(jugadores))[j] + 1
    {
      jugadores := jugadores + [j];
    }

    /** A read-only view of the roster: the method modifies nothing, so the
        roster is the same before and after. */
    method GetJugadores() returns (r: seq<Jugador>)
      ensures r == jugadores
    {
      r := jugadores;
    }
  }

  /** A caller that creates a team and adds the players of `js` one by one
      gets back exactly those players in the order they were added. */
  method ConstruirEquipo(nombre: string, js: seq<Jugador>) returns (e: Equipo)
    ensures fresh(e)
    ensures e.nombre == nombre
    ensures e.jugadores == js
  {
    e := new Equipo(nombre);
    for i := 0 to |js|
      invariant e.nombre == nombre
      invariant e.jugadores == js[..i]
    {
      e.AgregarJugador(js[i]);
      assert js[..i + 1] == js[..i] + [js[i]];
    }
    assert js[..|js|] == js;
  }
}
