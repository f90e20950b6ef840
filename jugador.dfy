/** A player of a team (Gestor/Jugador.java): an immutable value. */
module Jugadores {

  /** A player is created with a name and a position and never changes.
      The position is free text: the roles a comment lists ("Portero",
      "Delantero", "Defensa", ...) are not enforced. */
  datatype Jugador = Jugador(nombre: string, posicion: string)

  /** The accessors return exactly what the constructor was given. */
  lemma AccessorsReturnArguments(nombre: string, posicion: string)
    ensures Jugador(nombre, posicion).nombre == nombre
    ensures Jugador(nombre, posicion).posicion == posicion
  {
  }

  /** There is no validation: every name and every position, the empty
      string included, make a player. */
  lemma AnyPositionAccepted(nombre: string, posicion: string)
    ensures exists j: Jugador :: j.nombre == nombre && j.posicion == posicion
  {
    var j := Jugador(nombre, posicion);
    assert j.nombre == nombre && j.posicion == posicion;
  }
}
