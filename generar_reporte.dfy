/** Report generation (Gestor/GenerarReporte.java): a format flag selects a
    plain-text or an HTML listing of the team names and the referee names. */
module Reportes {

  import opened Wrappers

  // ---------------------------------------------------------------------
  // The format flag

  datatype Formato = Texto | Html

  /** ASCII upper-casing, the only folding that matters for the two flags. */
  function AsciiUpper(c: char): char
  {
    if 'a' <= c <= 'z' then (c as int - 32) as char else c
  }

  /** `equalsIgnoreCase`: same length and the same letters up to case. */
  predicate EqualsIgnoreCase(a: string, b: string)
    ensures EqualsIgnoreCase(a, b) ==> |a| == |b|
    ensures a == b ==> EqualsIgnoreCase(a, b)
  {
    |a| == |b| && forall i :: 0 <= i < |a| ==> AsciiUpper(a[i]) == AsciiUpper(b[i])
  }

  /** `s` spells the lower-case word `w` with every letter in either case. */
  predicate CasingOf(s: string, w: string)
  {
    |s| == |w| && forall i :: 0 <= i < |s| ==> s[i] == w[i] || s[i] == AsciiUpper(w[i])
  }

  /** The flag is tested against "TEXTO" first, then against "HTML". */
  function ElegirFormato(formato: string): (r: Option<Formato>)
    ensures r == Some(Texto) ==> |formato| == 5
    ensures r == Some(Html) ==> |formato| == 4
    ensures formato == "TEXTO" ==> r == Some(Texto)
    ensures formato == "HTML" ==> r == Some(Html)
  {
    if EqualsIgnoreCase(formato, "TEXTO") then Some(Texto)
    else if EqualsIgnoreCase(formato, "HTML") then Some(Html)
    else None
  }

  lemma UpperMatchesLetter(c: char, l: char)
    requires 'a' <= l <= 'z'
    ensures AsciiUpper(c) == AsciiUpper(l) <==> c == l || c == AsciiUpper(l)
  {
  }

  /** Comparing ignoring case with an upper-case word is the same as being
      some casing of its lower-case spelling. */
  lemma IgnoreCaseIsCasing(s: string, upper: string, lower: string)
    requires |upper| == |lower|
    requires forall i :: 0 <= i < |lower| ==> 'a' <= lower[i] <= 'z' && upper[i] == AsciiUpper(lower[i])
    ensures EqualsIgnoreCase(s, upper) <==> CasingOf(s, lower)
  {
    if |s| == |lower| {
      forall i | 0 <= i < |s|
        ensures AsciiUpper(s[i]) == AsciiUpper(upper[i]) <==> s[i] == lower[i] || s[i] == AsciiUpper(lower[i])
      {
        UpperMatchesLetter(s[i], lower[i]);
      }
    }
  }

  /** Any casing of "texto", and nothing else, selects the plain-text layout. */
  lemma TextoSelected(formato: string)
    ensures ElegirFormato(formato) == Some(Texto) <==> CasingOf(formato, "texto")
  {
    IgnoreCaseIsCasing(formato, "TEXTO", "texto");
  }

  /** Any casing of "html", and nothing else, selects the HTML layout. */
  lemma HtmlSelected(formato: string)
    ensures ElegirFormato(formato) == Some(Html) <==> CasingOf(formato, "html")
  {
    IgnoreCaseIsCasing(formato, "TEXTO", "texto");
    IgnoreCaseIsCasing(formato, "HTML", "html");
  }

  /** A flag that is a casing of neither word selects nothing. */
  lemma NothingSelected(formato: string)
    ensures ElegirFormato(formato) == None <==> !CasingOf(formato, "texto") && !CasingOf(formato, "html")
  {
    IgnoreCaseIsCasing(formato, "TEXTO", "texto");
    IgnoreCaseIsCasing(formato, "HTML", "html");
  }

  // ---------------------------------------------------------------------
  // The item lines

  /** The total length of the names. */
  function SumLengths(nombres: seq<string>): nat
    decreases |nombres|
  {
    if nombres == [] then 0 else SumLengths(nombres[..|nombres| - 1]) + |nombres[|nombres| - 1]|
  }

  /** One line per name, in order: `apertura + name + cierre`. */
  function Items(apertura: string, cierre: string, nombres: seq<string>): (r: string)
    ensures |r| >= SumLengths(nombres)
    decreases |nombres|
  {
    if nombres == [] then ""
    else Items(apertura, cierre, nombres[..|nombres| - 1]) + apertura + nombres[|nombres| - 1] + cierre
  }

  /** Where the line of `nombres[k]` starts inside `Items(apertura, cierre, nombres)`. */
  function ItemOffset(apertura: string, cierre: string, nombres: seq<string>, k: nat): nat
    requires k <= |nombres|
  {
    |Items(apertura, cierre, nombres[..k])|
  }

  predicate OccursAt(s: string, sub: string, i: nat)
  {
    i + |sub| <= |s| && s[i..i + |sub|] == sub
  }

  /** Names are copied verbatim: the lines take exactly the wrapper per
      name plus the names themselves. */
  lemma {:induction false} ItemsLength(apertura: string, cierre: string, nombres: seq<string>)
    ensures |Items(apertura, cierre, nombres)| == |nombres| * (|apertura| + |cierre|) + SumLengths(nombres)
    decreases |nombres|
  {
    if nombres != [] {
      var previos := nombres[..|nombres| - 1];
      var ancho := |apertura| + |cierre|;
      ItemsLength(apertura, cierre, previos);
      assert |Items(apertura, cierre, nombres)| == |Items(apertura, cierre, previos)| + ancho + |nombres[|nombres| - 1]|;
      assert |nombres| * ancho == |previos| * ancho + ancho;
    }
  }

  /** Listing two sequences one after the other is listing their concatenation. */
  lemma {:induction false} ItemsAppend(apertura: string, cierre: string, a: seq<string>, b: seq<string>)
    ensures Items(apertura, cierre, a + b) == Items(apertura, cierre, a) + Items(apertura, cierre, b)
    decreases |b|
  {
    if b != [] {
      var b' := b[..|b| - 1];
      assert (a + b)[..|a + b| - 1] == a + b';
      ItemsAppend(apertura, cierre, a, b');
    } else {
      assert a + b == a;
    }
  }

  lemma ItemsSingle(apertura: string, cierre: string, nombre: string)
    ensures Items(apertura, cierre, [nombre]) == apertura + nombre + cierre
  {
    assert [nombre][..0] == [];
  }

  /** Exactly one line per name, in order: the lines of the names before
      `k`, then the line of `nombres[k]`, then the lines of the rest. */
  lemma ItemsSplit(apertura: string, cierre: string, nombres: seq<string>, k: nat)
    requires k < |nombres|
    ensures Items(apertura, cierre, nombres)
         == Items(apertura, cierre, nombres[..k]) + (apertura + nombres[k] + cierre) + Items(apertura, cierre, nombres[k + 1..])
  {
    var before, after := nombres[..k], nombres[k + 1..];
    assert nombres == before + [nombres[k]] + after;
    ItemsAppend(apertura, cierre, before + [nombres[k]], after);
    ItemsAppend(apertura, cierre, before, [nombres[k]]);
    ItemsSingle(apertura, cierre, nombres[k]);
  }

  /** Lines come out in the order of the names. */
  lemma ItemOffsetsOrdered(apertura: string, cierre: string, nombres: seq<string>, j: nat, k: nat)
    requires j < k <= |nombres|
    ensures ItemOffset(apertura, cierre, nombres, j) + |apertura + nombres[j] + cierre| <= ItemOffset(apertura, cierre, nombres, k)
  {
    var pre := nombres[..k];
    ItemsSplit(apertura, cierre, pre, j);
    assert pre[..j] == nombres[..j];
  }

  /** The line of `nombres[k]` ends inside the lines of `nombres`. */
  lemma ItemEndsWithin(apertura: string, cierre: string, nombres: seq<string>, k: nat)
    requires k < |nombres|
    ensures ItemOffset(apertura, cierre, nombres, k) + |apertura + nombres[k] + cierre| <= |Items(apertura, cierre, nombres)|
  {
    ItemsSplit(apertura, cierre, nombres, k);
  }

  lemma MiddleOccurs(x: string, y: string, z: string)
    ensures OccursAt(x + y + z, y, |x|)
  {
    assert (x + y + z)[|x|..|x| + |y|] == y;
  }

  lemma Framed(x: string, y: string, z: string)
    ensures (x + y + z)[..|x|] == x
    ensures (x + y + z)[|x + y + z| - |z|..] == z
  {
    assert (x + y + z)[..|x|] == x;
    assert (x + y + z)[|x + y|..] == z;
  }

  lemma Regroup(p: string, a: string, x: string, b: string, q: string)
    ensures p + (a + x + b) + q == (p + a) + x + (b + q)
  {
  }

  /** Inside any text, the line of `nombres[k]` sits at its offset. */
  lemma ItemOccurs(pre: string, apertura: string, cierre: string, nombres: seq<string>, post: string, k: nat)
    requires k < |nombres|
    ensures OccursAt(pre + Items(apertura, cierre, nombres) + post, apertura + nombres[k] + cierre,
                     |pre| + ItemOffset(apertura, cierre, nombres, k))
  {
    var line := apertura + nombres[k] + cierre;
    var before := Items(apertura, cierre, nombres[..k]);
    var after := Items(apertura, cierre, nombres[k + 1..]);
    ItemsSplit(apertura, cierre, nombres, k);
    Regroup(pre, before, line, after, post);
    MiddleOccurs(pre + before, line, after + post);
  }

  // ---------------------------------------------------------------------
  // The two layouts

  /** Both reports have the same shape: a header, one line per team, a
      separator, one line per referee and a footer. */
  datatype Layout = Layout(cabecera: string, itemApertura: string, itemCierre: string, separador: string, pie: string)

  /** The report text for a layout, before `println` adds its newline. */
  function Render(l: Layout, equipos: seq<string>, arbitros: seq<string>): (r: string)
    ensures l.cabecera <= r
    ensures |r| >= |l.cabecera| + |l.separador| + |l.pie|
  {
    l.cabecera + Items(l.itemApertura, l.itemCierre, equipos)
    + l.separador + Items(l.itemApertura, l.itemCierre, arbitros) + l.pie
  }

  const TextoTitulo := "--- Reporte del Campeonato (TEXTO) ---\n"
  const TextoEquipos := "EQUIPOS:\n"
  const TextoArbitros := "ÁRBITROS:\n"

  const HtmlApertura := "<html><body>\n" + " <h1>Reporte del Campeonato</h1>\n" + " <h2>Equipos</h2>\n <ul>\n"
  const HtmlSeparador := " </ul>\n <h2>Árbitros</h2>\n <ul>\n"
  const HtmlCierre := " </ul>\n</body></html>"

  /** Plain text: a title, "EQUIPOS:", a "- name" line per team,
      "ÁRBITROS:", a "- name" line per referee, nothing after. */
  const TextoLayout := Layout(TextoTitulo + TextoEquipos, "- ", "\n", TextoArbitros, "")

  /** HTML: the team names and the referee names as `<li>` items of two
      `<ul>` lists under their own `<h2>` headings. */
  const HtmlLayout := Layout(HtmlApertura, " <li>", "</li>\n", HtmlSeparador, HtmlCierre)

  function LayoutOf(f: Formato): Layout
  {
    match f
    case Texto => TextoLayout
    case Html => HtmlLayout
  }

  /** What is printed for a flag: the selected layout followed by the
      newline of `println`, or nothing at all for an unknown flag. */
  function Reporte(formato: string, equipos: seq<string>, arbitros: seq<string>): (r: Option<string>)
    ensures r.Some? <==> ElegirFormato(formato).Some?
    ensures r.Some? ==> |r.value| > 0 && r.value[|r.value| - 1] == '\n'
  {
    match ElegirFormato(formato)
    case Some(f) => Some(Render(LayoutOf(f), equipos, arbitros) + "\n")
    case None => None
  }

  /** The TEXTO branch: grows `contenidoReporte` line by line. */
  method ConstruirTexto(equipos: seq<string>, arbitros: seq<string>) returns (contenidoReporte: string)
    ensures contenidoReporte == Render(TextoLayout, equipos, arbitros)
  {
    contenidoReporte := "--- Reporte del Campeonato (TEXTO) ---\n";
    contenidoReporte := contenidoReporte + "EQUIPOS:\n";
    for i := 0 to |equipos|
      invariant contenidoReporte == TextoLayout.cabecera + Items("- ", "\n", equipos[..i])
    {
      assert equipos[..i + 1][..i] == equipos[..i];
      contenidoReporte := contenidoReporte + "- " + equipos[i] + "\n";
    }
    assert equipos[..|equipos|] == equipos;
    contenidoReporte := contenidoReporte + "ÁRBITROS:\n";
    ghost var cabecera := contenidoReporte;
    for i := 0 to |arbitros|
      invariant contenidoReporte == cabecera + Items("- ", "\n", arbitros[..i])
    {
      assert arbitros[..i + 1][..i] == arbitros[..i];
      contenidoReporte := contenidoReporte + "- " + arbitros[i] + "\n";
    }
    assert arbitros[..|arbitros|] == arbitros;
    assert contenidoReporte + "" == contenidoReporte;
  }

  /** The HTML branch: grows `contenidoHtml` piece by piece. */
  method ConstruirHtml(equipos: seq<string>, arbitros: seq<string>) returns (contenidoHtml: string)
    ensures contenidoHtml == Render(HtmlLayout, equipos, arbitros)
  {
    contenidoHtml := "<html><body>\n";
    contenidoHtml := contenidoHtml + " <h1>Reporte del Campeonato</h1>\n";
    contenidoHtml := contenidoHtml + " <h2>Equipos</h2>\n <ul>\n";
    for i := 0 to |equipos|
      invariant contenidoHtml == HtmlApertura + Items(" <li>", "</li>\n", equipos[..i])
    {
      assert equipos[..i + 1][..i] == equipos[..i];
      contenidoHtml := contenidoHtml + " <li>" + equipos[i] + "</li>\n";
    }
    assert equipos[..|equipos|] == equipos;
    contenidoHtml := contenidoHtml + " </ul>\n <h2>Árbitros</h2>\n <ul>\n";
    ghost var cabecera := contenidoHtml;
    for i := 0 to |arbitros|
      invariant contenidoHtml == cabecera + Items(" <li>", "</li>\n", arbitros[..i])
    {
      assert arbitros[..i + 1][..i] == arbitros[..i];
      contenidoHtml := contenidoHtml + " <li>" + arbitros[i] + "</li>\n";
    }
    assert arbitros[..|arbitros|] == arbitros;
    contenidoHtml := contenidoHtml + " </ul>\n</body></html>";
  }

  /** `generarReportes`: tests the flag against "TEXTO", then "HTML", and
      returns what would be printed, the report and the newline of
      `println` (None: an unknown flag prints nothing). */
  method GenerarReportes(formato: string, equipos: seq<string>, arbitros: seq<string>) returns (salida: Option<string>)
    ensures salida == Reporte(formato, equipos, arbitros)
  {
    if EqualsIgnoreCase(formato, "TEXTO") {
      var contenidoReporte := ConstruirTexto(equipos, arbitros);
      salida := Some(contenidoReporte + "\n");
    } else if EqualsIgnoreCase(formato, "HTML") {
      var contenidoHtml := ConstruirHtml(equipos, arbitros);
      salida := Some(contenidoHtml + "\n");
    } else {
      salida := None;
    }
  }
}
