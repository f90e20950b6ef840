# Tournament roster and report generator, in Dafny

This project models the core of a small tournament roster written in Java
(package `Gestor`):

- **Jugador**, a player. It is an immutable value made of a name and a
  position.
- **Equipo**, a team. It has a fixed name and a roster of players that only
  grows by appending.
- **generarReportes**, the report routine. It takes a format flag, compares
  it without regard to case against `"TEXTO"` and then against `"HTML"`,
  and prints the team names and the referee names in a fixed plain-text
  layout or a fixed HTML layout. Any other flag prints nothing.

Modules:

- `Wrappers` (`wrappers.dfy`): the `Option` type.
- `Jugadores` (`jugador.dfy`): the player as a datatype.
- `Equipos` (`equipo.dfy`): the team as a class whose roster is a
  `seq<Jugador>` field. `AgregarJugador` reassigns it, and the getters are
  methods that modify nothing.
- `Reportes` (`generar_reporte.dfy`): the flag comparison, the item lines,
  and the two layouts. `ConstruirTexto` and `ConstruirHtml` grow the
  accumulator string in `for` loops, just as the source does with `+=`, and
  are proved equal to the pure specification `Render`. `GenerarReportes`
  tests the flag and calls one of them; it is proved equal to `Reporte`.
- `PropiedadesReporte` (`reporte_propiedades.dfy`): what the layouts
  promise. This covers which flag gives which output, the fixed frame, that
  each name gets exactly one line in collection order and in the correct
  section, the output with empty collections, and the output length.

The two layouts have the same shape: a header, one line per team, a
separator, one line per referee, and a footer. `Layout` records these five
pieces. `TextoLayout` and `HtmlLayout` are the two instances, and the
position lemmas are proved once for any layout.

The pieces are:

- Plain text:
  - header `"--- Reporte del Campeonato (TEXTO) ---\n" + "EQUIPOS:\n"`
  - item `"- " + name + "\n"`
  - separator `"ÁRBITROS:\n"`
  - empty footer
- HTML:
  - header `"<html><body>\n <h1>Reporte del Campeonato</h1>\n <h2>Equipos</h2>\n <ul>\n"`
  - item `" <li>" + name + "</li>\n"`
  - separator `" </ul>\n <h2>Árbitros</h2>\n <ul>\n"`
  - footer `" </ul>\n</body></html>"`

The value that `GenerarReportes` returns stands for what
`System.out.println` prints: the report followed by a line terminator,
fixed here to `"\n"`. `None` means that nothing is printed.

Notes on the code:

- Positions are free text. The roles ("Portero", "Delantero", "Defensa")
  appear only in a comment.
- Names may be empty. No constructor checks them.
- `getJugadores` returns a read-only view of the roster.

## Model

| member | source | states |
|---|---|---|
| `Jugadores.AccessorsReturnArguments` | src/main/java/Gestor/Jugador.java:14-16 | `getNombre` and `getPosicion` return exactly the name and the position given to the constructor |
| `Jugadores.AnyPositionAccepted` | src/main/java/Gestor/Jugador.java:13-14 | every name and every position, with no validation against a role list, make a player |
| `Equipos.Equipo.constructor` | src/main/java/Gestor/Equipo.java:18-19 | a new team has the supplied name and an empty roster |
| `Equipos.Equipo.GetNombre` | src/main/java/Gestor/Equipo.java:17-20 | returns the name fixed at construction (a `const` field that no method assigns) |
| `Equipos.Equipo.AgregarJugador` | src/main/java/Gestor/Equipo.java:21 | the roster becomes the old roster with `j` appended: one longer, earlier entries unchanged, `j` last, one more occurrence of `j` even if it was already present |
| `Equipos.Equipo.GetJugadores` | src/main/java/Gestor/Equipo.java:22 | returns the roster and modifies nothing |
| `Equipos.ConstruirEquipo` | src/main/java/Gestor/Equipo.java:19-22 | after a fresh team receives the players of `js` one `agregarJugador` at a time, its name is the given one and its roster is exactly `js` in insertion order |
| `Reportes.EqualsIgnoreCase` | src/main/java/Gestor/GenerarReporte.java:13-24 | `equalsIgnoreCase` on ASCII: same length and the same letters up to case; equal strings always match, and a match implies equal lengths |
| `Reportes.ElegirFormato` | src/main/java/Gestor/GenerarReporte.java:13-24 | the flag dispatch: "TEXTO" is tested first, then "HTML", otherwise nothing. Only a 5-character flag can select TEXTO and only a 4-character flag HTML; "TEXTO" and "HTML" themselves select their layouts |
| `Reportes.Items` | src/main/java/Gestor/GenerarReporte.java:16-35 | the text added by each for-each loop: one `apertura + name + cierre` line per name, in order; it is at least as long as the names together, since names are copied verbatim |
| `Reportes.Render` | src/main/java/Gestor/GenerarReporte.java:14-36 | a whole report: header, team lines, separator, referee lines, footer; it always starts with the header and is at least as long as the fixed frame |
| `Reportes.Reporte` | src/main/java/Gestor/GenerarReporte.java:12-38 | what is printed: output exists exactly when the flag selects a layout, and it then ends with the line terminator |
| `Reportes.TextoSelected` | src/main/java/Gestor/GenerarReporte.java:13 | the plain-text layout is selected exactly when the flag is some casing of "texto" |
| `Reportes.HtmlSelected` | src/main/java/Gestor/GenerarReporte.java:13-24 | the HTML layout is selected exactly when the flag is some casing of "html" (tested after "TEXTO", which no such flag matches) |
| `Reportes.NothingSelected` | src/main/java/Gestor/GenerarReporte.java:24-38 | no layout is selected exactly when the flag is a casing of neither word |
| `Reportes.ItemsLength` | src/main/java/Gestor/GenerarReporte.java:16-18 | the item lines take one wrapper per name plus the names verbatim |
| `Reportes.ItemsAppend` | src/main/java/Gestor/GenerarReporte.java:16-18 | the lines of a concatenation are the lines of the first part followed by those of the second |
| `Reportes.ItemsSplit` | src/main/java/Gestor/GenerarReporte.java:16-18 | exactly one line per name, in order: the lines before `k`, the line of name `k`, then the lines after it |
| `Reportes.ItemOffsetsOrdered` | src/main/java/Gestor/GenerarReporte.java:28-30 | the line of an earlier name ends before the line of a later name starts |
| `Reportes.ConstruirTexto` | src/main/java/Gestor/GenerarReporte.java:14-22 | the accumulator built by the TEXTO branch equals the plain-text layout of the teams and referees |
| `Reportes.ConstruirHtml` | src/main/java/Gestor/GenerarReporte.java:25-36 | the accumulator built by the HTML branch equals the HTML layout of the teams and referees |
| `Reportes.GenerarReportes` | src/main/java/Gestor/GenerarReporte.java:12-39 | the printed output is the TEXTO layout plus newline, or the HTML layout plus newline, or nothing, as the flag selects |
| `PropiedadesReporte.ReporteByFlag` | src/main/java/Gestor/GenerarReporte.java:13-38 | a casing of "texto" prints the text layout, one of "html" prints the HTML layout, and there is no output exactly when the flag is neither |
| `PropiedadesReporte.RenderFrame` | src/main/java/Gestor/GenerarReporte.java:14-36 | every report starts with its header, ends with its footer, and has its separator right after the team lines |
| `PropiedadesReporte.RenderTeamLine` | src/main/java/Gestor/GenerarReporte.java:16-18 | the line of team `k` is at its offset and ends before the separator |
| `PropiedadesReporte.RenderRefereeLine` | src/main/java/Gestor/GenerarReporte.java:20-22 | the line of referee `k` is after the separator at its offset and ends before the footer |
| `PropiedadesReporte.RenderEmpty` | src/main/java/Gestor/GenerarReporte.java:14-36 | with no teams and no referees the report is the header, the separator and the footer |
| `PropiedadesReporte.RenderLength` | src/main/java/Gestor/GenerarReporte.java:14-36 | the report length is the fixed frame plus one wrapper per item plus the name lengths |
| `PropiedadesReporte.TextoFrame` | src/main/java/Gestor/GenerarReporte.java:14-19 | the text report starts with its title and "EQUIPOS:", and "ÁRBITROS:" follows the team lines |
| `PropiedadesReporte.TextoTeamLines` | src/main/java/Gestor/GenerarReporte.java:16-19 | every "- team" line is in order and ends before the "ÁRBITROS:" header |
| `PropiedadesReporte.TextoRefereeLines` | src/main/java/Gestor/GenerarReporte.java:19-22 | every "- referee" line is in order after the "ÁRBITROS:" header |
| `PropiedadesReporte.TextoEmpty` | src/main/java/Gestor/GenerarReporte.java:14-22 | with empty collections the text report is exactly its three header lines |
| `PropiedadesReporte.TextoLength` | src/main/java/Gestor/GenerarReporte.java:14-22 | the text report is 58 characters plus 3 per item plus the name lengths |
| `PropiedadesReporte.HtmlFrame` | src/main/java/Gestor/GenerarReporte.java:25-36 | the HTML report starts with the opening of the document and team list, has the list separator after the team items, and ends with the closing of the referee list and document |
| `PropiedadesReporte.HtmlTeamItems` | src/main/java/Gestor/GenerarReporte.java:27-31 | every team is a `<li>` item of the first list, in order |
| `PropiedadesReporte.HtmlRefereeItems` | src/main/java/Gestor/GenerarReporte.java:31-36 | every referee is a `<li>` item of the second list, in order, before the closing frame |
| `PropiedadesReporte.HtmlEmpty` | src/main/java/Gestor/GenerarReporte.java:25-36 | with empty collections the HTML report is the opening, the separator and the closing |
| `PropiedadesReporte.HtmlLength` | src/main/java/Gestor/GenerarReporte.java:25-36 | the HTML report is 123 characters plus 11 per item plus the name lengths |
| `PropiedadesReporte.ExampleTexto` | src/main/java/Gestor/GenerarReporte.java:13-23 | with one team "Leones" and one referee "Garcia", "TEXTO" prints the lines "- Leones" and "- Garcia" under their headers |
| `PropiedadesReporte.ExampleHtmlLowerCase` | src/main/java/Gestor/GenerarReporte.java:24-37 | with the same data, the lower-case flag "html" prints `<li>Leones</li>` and `<li>Garcia</li>` in two separate lists |
| `PropiedadesReporte.ExampleUnknownFlag` | src/main/java/Gestor/GenerarReporte.java:24-38 | the flag "PDF" prints nothing |

## Left out

- Console output: `System.out.println` is modelled as the returned string, not as I/O.
- The line terminator that `println` appends is `System.lineSeparator()` in Java, which is `"\r\n"` on Windows. `Reporte` and `GenerarReportes` fix it to `"\n"`.
- The class that encloses `generarReportes`, its `equipos` and `arbitros` fields, and the `Arbitro` type are not part of this model. The source file references them but does not declare them. The two collections are passed as sequences of the names that `getNombre()` would return, in iteration order.
- `EqualsIgnoreCase` folds ASCII letters only. Java's `equalsIgnoreCase` also folds non-ASCII letters. No non-ASCII character folds onto the letters of "TEXTO" or "HTML", so the selection lemmas hold for the Java method as well.
- Null values: the model has no null strings or references. In Java both constructors accept a `null` name, and string concatenation turns it into the text `null`, so a null team or referee name prints `- null` (or `<li>null</li>`). A `null` flag, a `null` collection or a `null` element of a collection throws `NullPointerException`; none of these is modelled.
- Player object identity: `Jugador` does not override `equals`, so two Java players built from the same name and position are different objects. The datatype `Jugador` has value equality instead. As a result, the multiset clause of `Equipos.Equipo.AgregarJugador` counts value-equal players, not occurrences of the same object.
- `Equipos.Equipo.GetJugadores`: returns the roster's current value, a snapshot. The source returns a live unmodifiable view that would show later additions. Its `UnsupportedOperationException` on writes and its object identity are not modelled.
- The package name mismatch (`gestor` vs `Gestor`) and the NetBeans template comments have no behaviour.
