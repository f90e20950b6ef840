/** What the two report layouts promise: which flag yields which output,
    the fixed frame, the place and order of every item line, and the length. */
module PropiedadesReporte {

  import opened Wrappers
  import opened Reportes

  /** The flag decides the output: a casing of "texto" prints the text
      layout, a casing of "html" the HTML layout, anything else nothing. */
  lemma ReporteByFlag(formato: string, equipos: seq<string>, arbitros: seq<string>)
    ensures CasingOf(formato, "texto") ==> Reporte(formato, equipos, arbitros) == Some(Render(TextoLayout, equipos, arbitros) + "\n")
    ensures CasingOf(formato, "html") ==> Reporte(formato, equipos, arbitros) == Some(Render(HtmlLayout, equipos, arbitros) + "\n")
    ensures !CasingOf(formato, "texto") && !CasingOf(formato, "html") <==> Reporte(formato, equipos, arbitros) == None
  {
    TextoSelected(formato);
    HtmlSelected(formato);
    NothingSelected(formato);
  }

  // ---------------------------------------------------------------------
  // Any layout

  /** Where the separator starts: after the header and the team lines. */
  function SeparadorAt(l: Layout, equipos: seq<string>): nat
  {
    |l.cabecera| + |Items(l.itemApertura, l.itemCierre, equipos)|
  }

  /** The report starts with the header and ends with the footer, and the
      separator sits right after the team lines. */
  lemma RenderFrame(l: Layout, equipos: seq<string>, arbitros: seq<string>)
    ensures Render(l, equipos, arbitros)[..|l.cabecera|] == l.cabecera
    ensures |Render(l, equipos, arbitros)| >= |l.pie|
    ensures Render(l, equipos, arbitros)[|Render(l, equipos, arbitros)| - |l.pie|..] == l.pie
    ensures OccursAt(Render(l, equipos, arbitros), l.separador, SeparadorAt(l, equipos))
  {
    var equiposItems := Items(l.itemApertura, l.itemCierre, equipos);
    var arbitrosItems := Items(l.itemApertura, l.itemCierre, arbitros);
    var body := equiposItems + l.separador + arbitrosItems;
    assert Render(l, equipos, arbitros) == l.cabecera + body + l.pie;
    Framed(l.cabecera, body, l.pie);
    MiddleOccurs(l.cabecera + equiposItems, l.separador, arbitrosItems + l.pie);
  }

  /** Team `k` has its line after the header and the earlier teams' lines,
      and before the separator. */
  lemma RenderTeamLine(l: Layout, equipos: seq<string>, arbitros: seq<string>, k: nat)
    requires k < |equipos|
    ensures var off := |l.cabecera| + ItemOffset(l.itemApertura, l.itemCierre, equipos, k);
            OccursAt(Render(l, equipos, arbitros), l.itemApertura + equipos[k] + l.itemCierre, off)
            && off + |l.itemApertura + equipos[k] + l.itemCierre| <= SeparadorAt(l, equipos)
  {
    ItemOccurs(l.cabecera, l.itemApertura, l.itemCierre, equipos,
               l.separador + Items(l.itemApertura, l.itemCierre, arbitros) + l.pie, k);
    ItemEndsWithin(l.itemApertura, l.itemCierre, equipos, k);
  }

  /** Referee `k` has its line after the separator and the earlier
      referees' lines, and before the footer. */
  lemma RenderRefereeLine(l: Layout, equipos: seq<string>, arbitros: seq<string>, k: nat)
    requires k < |arbitros|
    ensures var off := SeparadorAt(l, equipos) + |l.separador| + ItemOffset(l.itemApertura, l.itemCierre, arbitros, k);
            OccursAt(Render(l, equipos, arbitros), l.itemApertura + arbitros[k] + l.itemCierre, off)
            && off + |l.itemApertura + arbitros[k] + l.itemCierre| + |l.pie| <= |Render(l, equipos, arbitros)|
  {
    var pre := l.cabecera + Items(l.itemApertura, l.itemCierre, equipos) + l.separador;
    ItemOccurs(pre, l.itemApertura, l.itemCierre, arbitros, l.pie, k);
    ItemEndsWithin(l.itemApertura, l.itemCierre, arbitros, k);
  }

  /** With no teams and no referees only the item lines are missing. */
  lemma RenderEmpty(l: Layout)
    ensures Render(l, [], []) == l.cabecera + l.separador + l.pie
  {
    assert Items(l.itemApertura, l.itemCierre, []) == "";
    assert l.cabecera + "" == l.cabecera;
  }

  /** Names are copied verbatim: the frame, one wrapper per item, and the names. */
  lemma RenderLength(l: Layout, equipos: seq<string>, arbitros: seq<string>)
    ensures |Render(l, equipos, arbitros)|
         == |l.cabecera| + |l.separador| + |l.pie|
            + (|equipos| + |arbitros|) * (|l.itemApertura| + |l.itemCierre|)
            + SumLengths(equipos) + SumLengths(arbitros)
  {
    ItemsLength(l.itemApertura, l.itemCierre, equipos);
    ItemsLength(l.itemApertura, l.itemCierre, arbitros);
  }

  // ---------------------------------------------------------------------
  // Plain text

  /** The text report starts with its title and "EQUIPOS:", and the
      "ÁRBITROS:" header follows the team lines. */
  lemma TextoFrame(equipos: seq<string>, arbitros: seq<string>)
    ensures Render(TextoLayout, equipos, arbitros)[..|TextoTitulo + TextoEquipos|] == TextoTitulo + TextoEquipos
    ensures OccursAt(Render(TextoLayout, equipos, arbitros), TextoArbitros, SeparadorAt(TextoLayout, equipos))
  {
    RenderFrame(TextoLayout, equipos, arbitros);
  }

  /** Every team line "- name\n" comes before the "ÁRBITROS:" header, in
      the order of the teams. */
  lemma TextoTeamLines(equipos: seq<string>, arbitros: seq<string>)
    ensures forall k :: 0 <= k < |equipos| ==>
              var off := |TextoTitulo + TextoEquipos| + ItemOffset("- ", "\n", equipos, k);
              OccursAt(Render(TextoLayout, equipos, arbitros), "- " + equipos[k] + "\n", off)
              && off + |"- " + equipos[k] + "\n"| <= SeparadorAt(TextoLayout, equipos)
  {
    forall k | 0 <= k < |equipos|
      ensures var off := |TextoTitulo + TextoEquipos| + ItemOffset("- ", "\n", equipos, k);
              OccursAt(Render(TextoLayout, equipos, arbitros), "- " + equipos[k] + "\n", off)
              && off + |"- " + equipos[k] + "\n"| <= SeparadorAt(TextoLayout, equipos)
    {
      RenderTeamLine(TextoLayout, equipos, arbitros, k);
    }
  }

  /** Every referee line "- name\n" comes after the "ÁRBITROS:" header, in
      the order of the referees. */
  lemma TextoRefereeLines(equipos: seq<string>, arbitros: seq<string>)
    ensures forall k :: 0 <= k < |arbitros| ==>
              OccursAt(Render(TextoLayout, equipos, arbitros), "- " + arbitros[k] + "\n",
                       SeparadorAt(TextoLayout, equipos) + |TextoArbitros| + ItemOffset("- ", "\n", arbitros, k))
  {
    forall k | 0 <= k < |arbitros|
      ensures OccursAt(Render(TextoLayout, equipos, arbitros), "- " + arbitros[k] + "\n",
                       SeparadorAt(TextoLayout, equipos) + |TextoArbitros| + ItemOffset("- ", "\n", arbitros, k))
    {
      RenderRefereeLine(TextoLayout, equipos, arbitros, k);
    }
  }

  /** With no teams and no referees the text layout still has every header. */
  lemma TextoEmpty()
    ensures Render(TextoLayout, [], []) == TextoTitulo + TextoEquipos + TextoArbitros
  {
    RenderEmpty(TextoLayout);
  }

  /** A fixed 58 characters, plus three per item line, plus the names. */
  lemma TextoLength(equipos: seq<string>, arbitros: seq<string>)
    ensures |Render(TextoLayout, equipos, arbitros)| == 58 + 3 * (|equipos| + |arbitros|) + SumLengths(equipos) + SumLengths(arbitros)
  {
    RenderLength(TextoLayout, equipos, arbitros);
  }

  // ---------------------------------------------------------------------
  // HTML

  /** The HTML document starts by opening the team list, closes it and
      opens the referee list after the team items, and ends by closing the
      referee list and the document. */
  lemma HtmlFrame(equipos: seq<string>, arbitros: seq<string>)
    ensures Render(HtmlLayout, equipos, arbitros)[..|HtmlApertura|] == HtmlApertura
    ensures OccursAt(Render(HtmlLayout, equipos, arbitros), HtmlSeparador, SeparadorAt(HtmlLayout, equipos))
    ensures |Render(HtmlLayout, equipos, arbitros)| >= |HtmlCierre|
    ensures Render(HtmlLayout, equipos, arbitros)[|Render(HtmlLayout, equipos, arbitros)| - |HtmlCierre|..] == HtmlCierre
  {
    RenderFrame(HtmlLayout, equipos, arbitros);
  }

  /** Every team is an `<li>` item of the first list, in order. */
  lemma HtmlTeamItems(equipos: seq<string>, arbitros: seq<string>)
    ensures forall k :: 0 <= k < |equipos| ==>
              var off := |HtmlApertura| + ItemOffset(" <li>", "</li>\n", equipos, k);
              OccursAt(Render(HtmlLayout, equipos, arbitros), " <li>" + equipos[k] + "</li>\n", off)
              && off + |" <li>" + equipos[k] + "</li>\n"| <= SeparadorAt(HtmlLayout, equipos)
  {
    forall k | 0 <= k < |equipos|
      ensures var off := |HtmlApertura| + ItemOffset(" <li>", "</li>\n", equipos, k);
              OccursAt(Render(HtmlLayout, equipos, arbitros), " <li>" + equipos[k] + "</li>\n", off)
              && off + |" <li>" + equipos[k] + "</li>\n"| <= SeparadorAt(HtmlLayout, equipos)
    {
      RenderTeamLine(HtmlLayout, equipos, arbitros, k);
    }
  }

  /** Every referee is an `<li>` item of the second list, in order, after
      the separator and before the closing frame. */
  lemma HtmlRefereeItems(equipos: seq<string>, arbitros: seq<string>)
    ensures forall k :: 0 <= k < |arbitros| ==>
              var off := SeparadorAt(HtmlLayout, equipos) + |HtmlSeparador| + ItemOffset(" <li>", "</li>\n", arbitros, k);
              OccursAt(Render(HtmlLayout, equipos, arbitros), " <li>" + arbitros[k] + "</li>\n", off)
              && off + |" <li>" + arbitros[k] + "</li>\n"| + |HtmlCierre| <= |Render(HtmlLayout, equipos, arbitros)|
  {
    forall k | 0 <= k < |arbitros|
      ensures var off := SeparadorAt(HtmlLayout, equipos) + |HtmlSeparador| + ItemOffset(" <li>", "</li>\n", arbitros, k);
              OccursAt(Render(HtmlLayout, equipos, arbitros), " <li>" + arbitros[k] + "</li>\n", off)
              && off + |" <li>" + arbitros[k] + "</li>\n"| + |HtmlCierre| <= |Render(HtmlLayout, equipos, arbitros)|
    {
      RenderRefereeLine(HtmlLayout, equipos, arbitros, k);
    }
  }

  /** With no teams and no referees the HTML layout still has both headings
      and both (empty) lists. */
  lemma HtmlEmpty()
    ensures Render(HtmlLayout, [], []) == HtmlApertura + HtmlSeparador + HtmlCierre
  {
    RenderEmpty(HtmlLayout);
  }

  /** A fixed 123 characters, plus eleven per item, plus the names. */
  lemma HtmlLength(equipos: seq<string>, arbitros: seq<string>)
    ensures |Render(HtmlLayout, equipos, arbitros)| == 123 + 11 * (|equipos| + |arbitros|) + SumLengths(equipos) + SumLengths(arbitros)
  {
    RenderLength(HtmlLayout, equipos, arbitros);
  }

  // ---------------------------------------------------------------------
  // One team, one referee

  lemma ExampleTexto()
    ensures Reporte("TEXTO", ["Leones"], ["Garcia"])
         == Some(TextoTitulo + TextoEquipos + "- Leones\n" + TextoArbitros + "- Garcia\n" + "\n")
  {
    ReporteByFlag("TEXTO", ["Leones"], ["Garcia"]);
    assert ["Leones"][..0] == [] && ["Garcia"][..0] == [];
    assert Items("- ", "\n", ["Leones"]) == "- Leones\n";
    assert Items("- ", "\n", ["Garcia"]) == "- Garcia\n";
    var texto := TextoTitulo + TextoEquipos + "- Leones\n" + TextoArbitros + "- Garcia\n";
    assert texto + "" == texto;
  }

  lemma ExampleHtmlLowerCase()
    ensures Reporte("html", ["Leones"], ["Garcia"])
         == Some(HtmlApertura + " <li>Leones</li>\n" + HtmlSeparador + " <li>Garcia</li>\n" + HtmlCierre + "\n")
  {
    ReporteByFlag("html", ["Leones"], ["Garcia"]);
    assert ["Leones"][..0] == [] && ["Garcia"][..0] == [];
    assert Items(" <li>", "</li>\n", ["Leones"]) == " <li>Leones</li>\n";
    assert Items(" <li>", "</li>\n", ["Garcia"]) == " <li>Garcia</li>\n";
    assert Render(HtmlLayout, ["Leones"], ["Garcia"])
        == HtmlApertura + " <li>Leones</li>\n" + HtmlSeparador + " <li>Garcia</li>\n" + HtmlCierre;
  }

  lemma ExampleUnknownFlag(equipos: seq<string>, arbitros: seq<string>)
    ensures Reporte("PDF", equipos, arbitros) == None
  {
    ReporteByFlag("PDF", equipos, arbitros);
  }
}
