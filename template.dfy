/** The substitution half of generarClase: normalising the class name and
    replacing each `$...$` placeholder of the template text with its
    fragment. */
module Template {
  import opened PyStr

  /** The characters of a placeholder's name. */
  predicate PalabraChar(c: char)
  {
    'a' <= c <= 'z' || c == '_'
  }

  /** A placeholder token: `$`, a non-empty name of lower-case letters and
      underscores, `$`. */
  predicate IsPlaceholder(p: string)
  {
    |p| >= 3 && p[0] == '$' && p[|p| - 1] == '$' && forall i :: 0 < i < |p| - 1 ==> PalabraChar(p[i])
  }

  const NombreClase := "$nombre_clase$"
  const NombreObjeto := "$nombre_objeto$"
  const ImportsP := "$imports$"
  const AtributosClaseP := "$atributos_clase$"
  const ParametrosP := "$parametros$"
  const AtributosInitP := "$atributos_init$"
  const SqlTableP := "$sql_table$"
  const Herencia := "$herencia$"

  /** The placeholders in the order in which generarClase replaces them. */
  const Placeholders: seq<string> :=
    [NombreClase, NombreObjeto, ImportsP, AtributosClaseP, ParametrosP, AtributosInitP, SqlTableP, Herencia]

  /** The replacement texts, in the same order. Only two placeholders have
      a text of their own when the fragment is empty: the SQL table becomes
      an empty triple-quoted literal, and the base class is `Storm` when some
      attribute is a reference and `object` otherwise. */
  function Valores(nombre: string, imports: string, atributosClase: string, parametros: string,
                   atributosInit: string, sqlTable: string, tieneReferencia: bool): seq<string>
  {
    [nombre, nombre, imports, atributosClase, parametros, atributosInit,
     if sqlTable != "" then sqlTable else "''''''",
     if tieneReferencia then "Storm" else "object"]
  }

  /** `s.replace(p0, v0).replace(p1, v1)...` in order. An empty pattern,
      which no placeholder is, is skipped. */
  function ReplaceEach(s: string, ps: seq<string>, vs: seq<string>): string
    requires |ps| == |vs|
    decreases |ps|
  {
    if ps == [] then s
    else ReplaceEach(if ps[0] == "" then s else ReplaceAll(s, ps[0], vs[0]), ps[1..], vs[1..])
  }

  /** Peeling one replacement off the front of the remaining ones. */
  lemma ReplaceEachStep(s: string, ps: seq<string>, vs: seq<string>, k: nat)
    requires |ps| == |vs| && k < |ps| && ps[k] != ""
    ensures ReplaceEach(s, ps[k..], vs[k..]) == ReplaceEach(ReplaceAll(s, ps[k], vs[k]), ps[k + 1..], vs[k + 1..])
  {
    assert ps[k..][0] == ps[k] && vs[k..][0] == vs[k];
    assert ps[k..][1..] == ps[k + 1..] && vs[k..][1..] == vs[k + 1..];
  }

  lemma PlaceholdersAreTokens()
    ensures forall i :: 0 <= i < |Placeholders| ==> IsPlaceholder(Placeholders[i])
  {
  }

  lemma PlaceholdersDistinct()
    ensures forall i, j :: 0 <= i < j < |Placeholders| ==> Placeholders[i] != Placeholders[j]
  {
  }

  /** The text of the class: the placeholders replaced one after the other,
      in the order of generarClase. */
  function Render(plantilla: string, nombre: string, imports: string, atributosClase: string,
                  parametros: string, atributosInit: string, sqlTable: string,
                  tieneReferencia: bool): string
  {
    var c1 := ReplaceAll(plantilla, NombreClase, nombre);
    var c2 := ReplaceAll(c1, NombreObjeto, nombre);
    var c3 := ReplaceAll(c2, ImportsP, imports);
    var c4 := ReplaceAll(c3, AtributosClaseP, atributosClase);
    var c5 := ReplaceAll(c4, ParametrosP, parametros);
    var c6 := ReplaceAll(c5, AtributosInitP, atributosInit);
    var c7 := ReplaceAll(c6, SqlTableP, if sqlTable != "" then sqlTable else "''''''");
    ReplaceAll(c7, Herencia, if tieneReferencia then "Storm" else "object")
  }

  /** Eight replacements in a row, spelled out. */
  lemma ReplaceEachEight(s: string, ps: seq<string>, vs: seq<string>)
    requires |ps| == 8 && |vs| == 8
    requires ps[0] != "" && ps[1] != "" && ps[2] != "" && ps[3] != ""
    requires ps[4] != "" && ps[5] != "" && ps[6] != "" && ps[7] != ""
    ensures ReplaceEach(s, ps, vs)
            == ReplaceAll(ReplaceAll(ReplaceAll(ReplaceAll(ReplaceAll(ReplaceAll(ReplaceAll(ReplaceAll(
                 s, ps[0], vs[0]), ps[1], vs[1]), ps[2], vs[2]), ps[3], vs[3]), ps[4], vs[4]),
                 ps[5], vs[5]), ps[6], vs[6]), ps[7], vs[7])
  {
    var c1 := ReplaceAll(s, ps[0], vs[0]);
    var c2 := ReplaceAll(c1, ps[1], vs[1]);
    var c3 := ReplaceAll(c2, ps[2], vs[2]);
    var c4 := ReplaceAll(c3, ps[3], vs[3]);
    var c5 := ReplaceAll(c4, ps[4], vs[4]);
    var c6 := ReplaceAll(c5, ps[5], vs[5]);
    var c7 := ReplaceAll(c6, ps[6], vs[6]);
    assert ps[0..] == ps && vs[0..] == vs;
    ReplaceEachStep(s, ps, vs, 0);
    ReplaceEachStep(c1, ps, vs, 1);
    ReplaceEachStep(c2, ps, vs, 2);
    ReplaceEachStep(c3, ps, vs, 3);
    ReplaceEachStep(c4, ps, vs, 4);
    ReplaceEachStep(c5, ps, vs, 5);
    ReplaceEachStep(c6, ps, vs, 6);
    ReplaceEachStep(c7, ps, vs, 7);
    assert ps[8..] == [] && vs[8..] == [];
  }

  /** Render is the generic replacement over the placeholder and value lists. */
  lemma RenderEach(plantilla: string, nombre: string, imports: string, atributosClase: string,
                   parametros: string, atributosInit: string, sqlTable: string, tieneReferencia: bool)
    ensures Render(plantilla, nombre, imports, atributosClase, parametros, atributosInit, sqlTable,
                   tieneReferencia)
            == ReplaceEach(plantilla, Placeholders,
                           Valores(nombre, imports, atributosClase, parametros, atributosInit, sqlTable,
                                   tieneReferencia))
  {
    ReplaceEachEight(plantilla, Placeholders,
      Valores(nombre, imports, atributosClase, parametros, atributosInit, sqlTable, tieneReferencia));
  }

  /** `__normalizarCampo`. Its loop calls `campo.replace('  ', ' ')` and
      drops the result, so `campo` never changes: with a double space the
      guard stays true forever (None), and otherwise every space becomes an
      underscore. */
  function NormalizarCampo(campo: string): (r: Option<string>)
    ensures r.None? <==> exists j :: MatchAt(campo, "  ", j)
    ensures r.Some? ==>
              |r.value| == |campo| &&
              forall i :: 0 <= i < |campo| ==> r.value[i] == if campo[i] == ' ' then '_' else campo[i]
  {
    if Find(campo, "  ") != -1 then None
    else
      ReplaceCharAt(campo, ' ', '_');
      Some(ReplaceAll(campo, " ", "_"))
  }

  // ---------------------------------------------------------------------
  // What the substitution does to a template

  /** In x + p + y, with `$` only in the placeholder p, the `$` signs are
      those of p. */
  lemma DollarPositions(x: string, p: string, y: string)
    requires IsPlaceholder(p) && '$' !in x && '$' !in y
    ensures forall i :: 0 <= i < |x + p + y| && i != |x| && i != |x| + |p| - 1 ==> (x + p + y)[i] != '$'
  {
    var s := x + p + y;
    forall i | 0 <= i < |s| && i != |x| && i != |x| + |p| - 1 ensures s[i] != '$' {
      if i < |x| {
        assert s[i] == x[i];
      } else if i >= |x| + |p| {
        assert s[i] == y[i - |x| - |p|];
      } else {
        assert s[i] == p[i - |x|];
      }
    }
  }

  /** Another placeholder q does not occur in x + p + y. */
  lemma OtherPlaceholder(x: string, p: string, y: string, q: string, v: string)
    requires IsPlaceholder(p) && IsPlaceholder(q) && p != q && '$' !in x && '$' !in y
    ensures ReplaceAll(x + p + y, q, v) == x + p + y
  {
    var s := x + p + y;
    DollarPositions(x, p, y);
    forall j ensures !MatchAt(s, q, j) {
      if 0 <= j && j + |q| <= |s| {
        var w := s[j..j + |q|];
        assert w != q by {
          if j != |x| && j != |x| + |p| - 1 {
            assert w[0] == s[j] != '$';
          } else if j == |x| + |p| - 1 {
            assert w[|q| - 1] == s[j + |q| - 1] != '$';
          } else if |q| == |p| {
            assert w == p;
          } else if |q| < |p| {
            assert w[|q| - 1] == s[j + |q| - 1] != '$';
          } else {
            assert w[|p| - 1] == s[|x| + |p| - 1] == '$';
            assert q[|p| - 1] != '$';
          }
        }
      }
    }
    ReplaceAllNoMatch(s, q, v);
  }

  /** A text without `$` passes through every replacement unchanged. */
  lemma {:induction false} ReplaceEachNoDollar(s: string, ps: seq<string>, vs: seq<string>)
    requires |ps| == |vs| && forall i :: 0 <= i < |ps| ==> IsPlaceholder(ps[i])
    requires '$' !in s
    ensures ReplaceEach(s, ps, vs) == s
  {
    if ps != [] {
      assert IsPlaceholder(ps[0]);
      ReplaceAllAbsent(s, ps[0], vs[0]);
      ReplaceEachNoDollar(s, ps[1..], vs[1..]);
    }
  }

  /** A template whose only `$...$` token is the k-th placeholder receives
      the k-th text in its place and is otherwise unchanged. */
  lemma {:induction false} ReplaceEachOne(x: string, y: string, ps: seq<string>, vs: seq<string>, k: nat)
    requires |ps| == |vs| && forall i :: 0 <= i < |ps| ==> IsPlaceholder(ps[i])
    requires k < |ps| && forall i :: 0 <= i < |ps| && i != k ==> ps[i] != ps[k]
    requires '$' !in x && '$' !in y && '$' !in vs[k]
    ensures ReplaceEach(x + ps[k] + y, ps, vs) == x + vs[k] + y
  {
    assert IsPlaceholder(ps[0]);
    if k == 0 {
      ReplaceAllFirst(x, ps[0], y, vs[0], 0);
      ReplaceAllAbsent(y, ps[0], vs[0]);
      assert '$' !in x + vs[0] + y;
      ReplaceEachNoDollar(x + vs[0] + y, ps[1..], vs[1..]);
    } else {
      OtherPlaceholder(x, ps[k], y, ps[0], vs[0]);
      assert ps[1..][k - 1] == ps[k] && vs[1..][k - 1] == vs[k];
      ReplaceEachOne(x, y, ps[1..], vs[1..], k - 1);
    }
  }

  /** A template without `$` is returned as it is. */
  lemma RenderNoPlaceholder(plantilla: string, nombre: string, imports: string, atributosClase: string,
                            parametros: string, atributosInit: string, sqlTable: string,
                            tieneReferencia: bool)
    requires '$' !in plantilla
    ensures Render(plantilla, nombre, imports, atributosClase, parametros, atributosInit, sqlTable,
                   tieneReferencia) == plantilla
  {
    PlaceholdersAreTokens();
    RenderEach(plantilla, nombre, imports, atributosClase, parametros, atributosInit, sqlTable, tieneReferencia);
    ReplaceEachNoDollar(plantilla, Placeholders,
      Valores(nombre, imports, atributosClase, parametros, atributosInit, sqlTable, tieneReferencia));
  }

  /** Each placeholder, alone in a template, is replaced by its text. */
  lemma RenderOnePlaceholder(x: string, y: string, k: nat, nombre: string, imports: string,
                             atributosClase: string, parametros: string, atributosInit: string,
                             sqlTable: string, tieneReferencia: bool)
    requires k < |Placeholders| && '$' !in x && '$' !in y
    requires '$' !in Valores(nombre, imports, atributosClase, parametros, atributosInit, sqlTable,
                             tieneReferencia)[k]
    ensures Render(x + Placeholders[k] + y, nombre, imports, atributosClase, parametros, atributosInit,
                   sqlTable, tieneReferencia)
            == x + Valores(nombre, imports, atributosClase, parametros, atributosInit, sqlTable,
                           tieneReferencia)[k] + y
  {
    PlaceholdersAreTokens();
    PlaceholdersDistinct();
    RenderEach(x + Placeholders[k] + y, nombre, imports, atributosClase, parametros, atributosInit, sqlTable,
               tieneReferencia);
    ReplaceEachOne(x, y, Placeholders,
      Valores(nombre, imports, atributosClase, parametros, atributosInit, sqlTable, tieneReferencia), k);
  }

  // ---------------------------------------------------------------------
  // A template with several placeholders

  /** A template cut into pieces: literal text, or the k-th placeholder. */
  datatype Segmento = Texto(t: string) | Hueco(k: nat)

  /** Text that holds a character no placeholder name holds. */
  predicate Separador(t: string)
  {
    exists i :: 0 <= i < |t| && !PalabraChar(t[i])
  }

  /** The literal text holds no `$`, every hole names one of the n
      placeholders, and a hole is followed by nothing, by the final text, or
      by text holding a character that cannot continue a placeholder name (a
      space, a parenthesis, a newline). */
  predicate BienFormada(segs: seq<Segmento>, n: nat)
  {
    && (forall i :: 0 <= i < |segs| && segs[i].Texto? ==> '$' !in segs[i].t)
    && (forall i :: 0 <= i < |segs| && segs[i].Hueco? ==> segs[i].k < n)
    && (forall i :: 0 < i < |segs| && segs[i - 1].Hueco? ==>
          segs[i].Texto? && (i == |segs| - 1 || Separador(segs[i].t)))
  }

  /** The text with each hole k written as vs[k]: the template itself when
      vs are the placeholders, the filled text when they are the values. */
  function Relleno(segs: seq<Segmento>, vs: seq<string>): string
  {
    if segs == [] then ""
    else
      (match segs[0]
       case Texto(t) => t
       case Hueco(k) => if k < |vs| then vs[k] else "")
      + Relleno(segs[1..], vs)
  }

  /** The text after the first m replacements: holes below m hold their
      value, the others still hold their placeholder. */
  function Mezcla(segs: seq<Segmento>, ps: seq<string>, vs: seq<string>, m: nat): string
    requires |ps| == |vs|
  {
    if segs == [] then ""
    else
      (match segs[0]
       case Texto(t) => t
       case Hueco(k) => if k < m && k < |vs| then vs[k] else if k < |ps| then ps[k] else "")
      + Mezcla(segs[1..], ps, vs, m)
  }

  lemma {:induction false} MezclaExtremos(segs: seq<Segmento>, ps: seq<string>, vs: seq<string>)
    requires |ps| == |vs|
    ensures Mezcla(segs, ps, vs, 0) == Relleno(segs, ps)
    ensures Mezcla(segs, ps, vs, |ps|) == Relleno(segs, vs)
  {
    if segs != [] {
      MezclaExtremos(segs[1..], ps, vs);
    }
  }

  lemma BienFormadaCola(segs: seq<Segmento>, n: nat)
    requires segs != [] && BienFormada(segs, n)
    ensures BienFormada(segs[1..], n)
  {
    var c := segs[1..];
    forall i | 0 < i < |c| && c[i - 1].Hueco? ensures c[i].Texto? && (i == |c| - 1 || Separador(c[i].t)) {
      assert c[i] == segs[i + 1] && c[i - 1] == segs[i];
    }
  }

  /** A placeholder q other than p has no occurrence starting inside p when
      p is followed by `$`-free text t, and t separates p from what follows
      unless nothing follows. */
  lemma OtroHueco(p: string, q: string, t: string, y: string, r: string)
    requires IsPlaceholder(p) && IsPlaceholder(q) && p != q
    requires '$' !in t && (y == [] || Separador(t))
    ensures ReplaceAll(p + (t + y), q, r) == p + ReplaceAll(t + y, q, r)
  {
    var z := t + y;
    var s := p + z;
    forall j | 0 <= j < |p| ensures !MatchAt(s, q, j) {
      if j + |q| <= |s| {
        var w := s[j..j + |q|];
        assert w != q by {
          if j == 0 {
            if |q| < |p| {
              assert w[|q| - 1] == p[|q| - 1];
            } else if |q| == |p| {
              assert w == p;
            } else {
              assert w[|p| - 1] == p[|p| - 1];
            }
          } else if j < |p| - 1 {
            assert w[0] == p[j];
          } else if |q| - 2 < |t| {
            assert w[|q| - 1] == t[|q| - 2];
          } else {
            var i :| 0 <= i < |t| && !PalabraChar(t[i]);
            assert w[i + 1] == t[i];
          }
        }
      }
    }
    ReplaceAllNoMatchPrefix(p, z, q, r);
  }

  /** The (m+1)-th replacement fills exactly the holes of the m-th
      placeholder and leaves everything else in place. */
  lemma {:induction false} PasoMezcla(segs: seq<Segmento>, ps: seq<string>, vs: seq<string>, m: nat)
    requires |ps| == |vs| && m < |ps|
    requires forall i :: 0 <= i < |ps| ==> IsPlaceholder(ps[i])
    requires forall i, j :: 0 <= i < j < |ps| ==> ps[i] != ps[j]
    requires forall i :: 0 <= i < |vs| ==> '$' !in vs[i]
    requires BienFormada(segs, |ps|)
    requires ps[m] != ""
    ensures ReplaceAll(Mezcla(segs, ps, vs, m), ps[m], vs[m]) == Mezcla(segs, ps, vs, m + 1)
    decreases |segs|
  {
    var q := ps[m];
    var r := vs[m];
    assert IsPlaceholder(q);
    if segs != [] {
      var z := Mezcla(segs[1..], ps, vs, m);
      BienFormadaCola(segs, |ps|);
      PasoMezcla(segs[1..], ps, vs, m);
      match segs[0]
      case Texto(t) =>
        ReplaceAllSkip(t, z, q, r);
      case Hueco(k) =>
        if k < m {
          ReplaceAllSkip(vs[k], z, q, r);
        } else if k == m {
          ReplaceAllFirst([], q, z, r, 0);
          assert [] + q + z == q + z;
          assert [] + r + ReplaceAll(z, q, r) == r + ReplaceAll(z, q, r);
        } else {
          assert IsPlaceholder(ps[k]) && ps[k] != q;
          if |segs| == 1 {
            assert z == [] + [];
            OtroHueco(ps[k], q, [], [], r);
          } else {
            var c := segs[1..];
            assert c[0] == segs[1];
            var t := segs[1].t;
            var y := Mezcla(c[1..], ps, vs, m);
            assert z == t + y;
            if |segs| == 2 {
              assert y == [];
            }
            OtroHueco(ps[k], q, t, y, r);
          }
        }
    }
  }

  /** The replacements from the m-th on fill every remaining hole. */
  lemma {:induction false} ReplaceEachMezcla(segs: seq<Segmento>, ps: seq<string>, vs: seq<string>, m: nat)
    requires |ps| == |vs| && m <= |ps|
    requires forall i :: 0 <= i < |ps| ==> IsPlaceholder(ps[i])
    requires forall i, j :: 0 <= i < j < |ps| ==> ps[i] != ps[j]
    requires forall i :: 0 <= i < |vs| ==> '$' !in vs[i]
    requires BienFormada(segs, |ps|)
    ensures ReplaceEach(Mezcla(segs, ps, vs, m), ps[m..], vs[m..]) == Mezcla(segs, ps, vs, |ps|)
    decreases |ps| - m
  {
    if m < |ps| {
      assert IsPlaceholder(ps[m]);
      ReplaceEachStep(Mezcla(segs, ps, vs, m), ps, vs, m);
      PasoMezcla(segs, ps, vs, m);
      ReplaceEachMezcla(segs, ps, vs, m + 1);
    } else {
      assert ps[m..] == [] && vs[m..] == [];
    }
  }

  /** Distinct placeholders, each occurring any number of times in a
      template, with `$`-free text and values: replacing them one after the
      other puts every value in every hole of its placeholder; the
      replacements do not interfere. */
  lemma ReplaceEachPlantilla(segs: seq<Segmento>, ps: seq<string>, vs: seq<string>)
    requires |ps| == |vs|
    requires forall i :: 0 <= i < |ps| ==> IsPlaceholder(ps[i])
    requires forall i, j :: 0 <= i < j < |ps| ==> ps[i] != ps[j]
    requires forall i :: 0 <= i < |vs| ==> '$' !in vs[i]
    requires BienFormada(segs, |ps|)
    ensures ReplaceEach(Relleno(segs, ps), ps, vs) == Relleno(segs, vs)
  {
    MezclaExtremos(segs, ps, vs);
    ReplaceEachMezcla(segs, ps, vs, 0);
    assert ps[0..] == ps && vs[0..] == vs;
  }

  /** Two holes between three texts, written out. */
  lemma DosHuecos(x: string, i: nat, y: string, j: nat, z: string, vs: seq<string>)
    requires i < |vs| && j < |vs|
    ensures Relleno([Texto(x), Hueco(i), Texto(y), Hueco(j), Texto(z)], vs) == x + vs[i] + y + vs[j] + z
  {
    var s4 := [Texto(z)];
    var s3 := [Hueco(j)] + s4;
    var s2 := [Texto(y)] + s3;
    var s1 := [Hueco(i)] + s2;
    var s0 := [Texto(x)] + s1;
    assert s0 == [Texto(x), Hueco(i), Texto(y), Hueco(j), Texto(z)];
    assert s4[1..] == [] && s3[1..] == s4 && s2[1..] == s3 && s1[1..] == s2 && s0[1..] == s1;
    assert Relleno(s4, vs) == z + "" == z;
    assert Relleno(s3, vs) == vs[j] + z;
    assert Relleno(s2, vs) == y + (vs[j] + z);
    assert Relleno(s1, vs) == vs[i] + (y + (vs[j] + z));
    assert Relleno(s0, vs) == x + (vs[i] + (y + (vs[j] + z)));
    ConcatAssoc(y, vs[j], z);
    ConcatAssoc(vs[i], y + vs[j], z);
    ConcatAssoc(vs[i], y, vs[j]);
    ConcatAssoc(x, vs[i] + y + vs[j], z);
    ConcatAssoc(x, vs[i] + y, vs[j]);
    ConcatAssoc(x, vs[i], y);
  }

  lemma DosHuecosBienFormada(x: string, i: nat, y: string, j: nat, z: string, n: nat)
    requires '$' !in x && '$' !in y && '$' !in z && Separador(y) && i < n && j < n
    ensures BienFormada([Texto(x), Hueco(i), Texto(y), Hueco(j), Texto(z)], n)
  {
  }

  /** The whole substitution on a template with any number of placeholders:
      with `$`-free fragments, every occurrence of each placeholder
      receives its text, `$nombre_clase$` and `$nombre_objeto$` alike. */
  lemma RenderPlantilla(segs: seq<Segmento>, nombre: string, imports: string, atributosClase: string,
                        parametros: string, atributosInit: string, sqlTable: string, tieneReferencia: bool)
    requires BienFormada(segs, |Placeholders|)
    requires '$' !in nombre && '$' !in imports && '$' !in atributosClase && '$' !in parametros
    requires '$' !in atributosInit && '$' !in sqlTable
    ensures Render(Relleno(segs, Placeholders), nombre, imports, atributosClase, parametros, atributosInit,
                   sqlTable, tieneReferencia)
            == Relleno(segs, Valores(nombre, imports, atributosClase, parametros, atributosInit, sqlTable,
                                     tieneReferencia))
  {
    var vs := Valores(nombre, imports, atributosClase, parametros, atributosInit, sqlTable, tieneReferencia);
    PlaceholdersAreTokens();
    PlaceholdersDistinct();
    RenderEach(Relleno(segs, Placeholders), nombre, imports, atributosClase, parametros, atributosInit,
               sqlTable, tieneReferencia);
    ReplaceEachPlantilla(segs, Placeholders, vs);
  }
}
