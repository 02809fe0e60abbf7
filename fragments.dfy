/** What each fragment generator of LogicStormClass appends, as a function
    of the attribute list. The class methods in module LogicStorm are proved
    to append exactly these values; the lemmas here state what the values
    look like. */
module Fragments {
  import opened PyStr
  import DatabaseTypes

  /** One attribute dictionary as the form hands it in. Every value is a
      string; the flags are compared with the literals 'True' and 'False',
      and any other value (such as '') satisfies neither comparison. The
      'widget' key is never read by the generator and is not modelled. */
  datatype Atributo = Atributo(
    atributo: string,
    stormType: string,
    primario: string,
    notNull: string,
    default: string,
    referencia: string,
    cruzada: string)

  predicate IsNameChar(c: char)
  {
    'a' <= c <= 'z' || 'A' <= c <= 'Z' || '0' <= c <= '9' || c == '_'
  }

  /** A plain identifier: letters, digits and underscores only. */
  predicate IsName(s: string)
  {
    forall i :: 0 <= i < |s| ==> IsNameChar(s[i])
  }

  lemma CapitalizeName(s: string)
    requires IsName(s)
    ensures IsName(Capitalize(s))
  {
    var t := Capitalize(s);
    forall i | 0 <= i < |t| ensures IsNameChar(t[i]) {
      if i > 0 {
        assert t[i] == LowerChar(s[i]);
      }
    }
  }

  // ---------------------------------------------------------------------
  // Fragments built one piece per attribute, in input order

  /** The concatenation of one piece per attribute, in input order. */
  function ConcatMap(f: Atributo -> string, atributos: seq<Atributo>): string
  {
    if atributos == [] then ""
    else ConcatMap(f, atributos[..|atributos| - 1]) + f(atributos[|atributos| - 1])
  }

  lemma {:induction false} ConcatMapAppend(f: Atributo -> string, p: seq<Atributo>, q: seq<Atributo>)
    ensures ConcatMap(f, p + q) == ConcatMap(f, p) + ConcatMap(f, q)
    decreases |q|
  {
    if q == [] {
      assert p + q == p;
    } else {
      var q' := q[..|q| - 1];
      assert (p + q)[..|p + q| - 1] == p + q';
      assert (p + q)[|p + q| - 1] == q[|q| - 1];
      ConcatMapAppend(f, p, q');
    }
  }

  /** Every attribute contributes its own piece at its own position: nothing
      is merged, dropped or reordered. */
  lemma ConcatMapAt(f: Atributo -> string, p: seq<Atributo>, a: Atributo, q: seq<Atributo>)
    ensures ConcatMap(f, p + [a] + q) == ConcatMap(f, p) + f(a) + ConcatMap(f, q)
  {
    ConcatMapAppend(f, p + [a], q);
    ConcatMapAppend(f, p, [a]);
    assert [a][..0] == [];
  }

  // ---------------------------------------------------------------------
  // __generarImports

  /** An import is written for a reference whose `cruzada` is exactly 'False'. */
  predicate Importado(a: Atributo)
  {
    a.referencia != "" && a.cruzada == "False"
  }

  function ImportLine(a: Atributo): string
  {
    "from " + Lower(a.referencia) + " import " + Capitalize(a.referencia) + "\n"
  }

  function ImportPiece(a: Atributo): string
  {
    if Importado(a) then ImportLine(a) else ""
  }

  function Imports(atributos: seq<Atributo>): string
  {
    ConcatMap(ImportPiece, atributos)
  }

  /** One import line per imported attribute, at its position; duplicates stay. */
  lemma ImportsAt(p: seq<Atributo>, a: Atributo, q: seq<Atributo>)
    ensures Imports(p + [a] + q) ==
            Imports(p) + (if Importado(a) then ImportLine(a) else "") + Imports(q)
  {
    ConcatMapAt(ImportPiece, p, a, q);
  }

  /** The imports fragment is empty exactly when no attribute is imported. */
  lemma {:induction false} ImportsEmpty(atributos: seq<Atributo>)
    ensures Imports(atributos) == "" <==>
            forall i :: 0 <= i < |atributos| ==> !Importado(atributos[i])
  {
    if atributos != [] {
      var p := atributos[..|atributos| - 1];
      ImportsEmpty(p);
      if Importado(atributos[|atributos| - 1]) {
        assert |ImportLine(atributos[|atributos| - 1])| > 0;
      } else {
        forall i | 0 <= i < |p| ensures p[i] == atributos[i] { }
      }
    }
  }

  // ---------------------------------------------------------------------
  // __generarAtributosInit and __generarParametrosInit

  function InitLine(a: Atributo): string
  {
    "        self." + Lower(a.atributo) + " = " + Lower(a.atributo) + "\n"
  }

  function AtributosInit(atributos: seq<Atributo>): string
  {
    ConcatMap(InitLine, atributos)
  }

  function ParamItem(a: Atributo): string
  {
    " " + Lower(a.atributo) + ","
  }

  /** The parameter field after one run, from its value `previo` before it:
      the items are appended, then the last character is cut and ', ' put in
      front; an empty list leaves the field alone. */
  function Parametros(previo: string, atributos: seq<Atributo>): string
  {
    if |atributos| > 0 then ", " + DropLast(previo + ConcatMap(ParamItem, atributos), 1)
    else previo
  }

  /** The lower-cased names joined by ', '. */
  function JoinNames(atributos: seq<Atributo>): string
    requires |atributos| > 0
  {
    if |atributos| == 1 then Lower(atributos[0].atributo)
    else JoinNames(atributos[..|atributos| - 1]) + ", " + Lower(atributos[|atributos| - 1].atributo)
  }

  lemma {:induction false} ParamItemsJoined(atributos: seq<Atributo>)
    requires |atributos| > 0
    ensures ConcatMap(ParamItem, atributos) == " " + JoinNames(atributos) + ","
  {
    var p := atributos[..|atributos| - 1];
    if |atributos| > 1 {
      ParamItemsJoined(p);
    } else {
      assert p == [];
    }
  }

  /** From an empty field, the parameters are ',  a, b, c': a double space
      after the leading comma and no trailing comma. */
  lemma ParametrosFresh(atributos: seq<Atributo>)
    ensures |atributos| == 0 ==> Parametros("", atributos) == ""
    ensures |atributos| > 0 ==> Parametros("", atributos) == ",  " + JoinNames(atributos)
  {
    if |atributos| > 0 {
      var j := JoinNames(atributos);
      ParamItemsJoined(atributos);
      var s := " " + j + ",";
      assert "" + s == s;
      assert DropLast(s, 1) == " " + j;
      ConcatAssoc(", ", " ", j);
      assert ", " + " " == ",  ";
    }
  }

  // ---------------------------------------------------------------------
  // __generarReferencias

  /** The reference format string, with its column type `Int()` and its
      target `Clase.ide` turned into holes. */
  function RefLines(n: string, columna: string, destino: string): string
  {
    "    " + n + "_id = " + columna + "\n    " + n + " = Reference(" + n + "_id, " + destino + ")\n"
  }

  /** The two declarations of a referenced attribute: the backing integer
      column and the Reference to the capitalised entity's `ide`, quoted when
      `cruzada` is 'True', with the column primary when `primario` is 'True'. */
  function RefFragment(a: Atributo): string
  {
    var cruzado := RefCruzado(a);
    if a.primario == "True" then ReplaceAll(cruzado, "()", "(primary = True)") else cruzado
  }

  /** The two declarations before the primary-key replacement. */
  function RefCruzado(a: Atributo): string
  {
    var clase := Capitalize(a.referencia);
    var base := RefLines(a.atributo, "Int()", clase + ".ide");
    if a.cruzada == "True" then ReplaceAll(base, clase + ".ide", "\"" + clase + ".ide\"") else base
  }

  /** The state of the loop: what has been appended, and `un_atributo_clase`,
      the fragment of the latest referenced attribute (initially ''). */
  datatype RefState = RefState(out: string, ultimo: string)

  function Referencias(atributos: seq<Atributo>): RefState
  {
    if atributos == [] then RefState("", "")
    else
      var prev := Referencias(atributos[..|atributos| - 1]);
      var a := atributos[|atributos| - 1];
      var ultimo := if a.referencia != "" then RefFragment(a) else prev.ultimo;
      RefState(prev.out + ultimo, ultimo)
  }

  predicate HasReference(atributos: seq<Atributo>)
  {
    exists i | 0 <= i < |atributos| :: atributos[i].referencia != ""
  }

  /** One more attribute has a reference exactly when it or an earlier one has. */
  lemma HasReferenceSnoc(p: seq<Atributo>, a: Atributo)
    ensures HasReference(p + [a]) <==> HasReference(p) || a.referencia != ""
  {
    if HasReference(p) {
      var j :| 0 <= j < |p| && p[j].referencia != "";
      assert (p + [a])[j] == p[j];
    }
    if a.referencia != "" {
      assert (p + [a])[|p|] == a;
    }
  }

  /** Quoting the target touches only the `Clase.ide` after the comma. */
  lemma RefQuote(n: string, clase: string)
    requires IsName(n) && IsName(clase)
    ensures ReplaceAll(RefLines(n, "Int()", clase + ".ide"), clase + ".ide", "\"" + clase + ".ide\"")
            == RefLines(n, "Int()", "\"" + clase + ".ide\"")
  {
    var x := "    " + n + "_id = " + "Int()" + "\n    " + n + " = Reference(" + n + "_id, ";
    var pat := clase + ".ide";
    var r := "\"" + clase + ".ide\"";
    assert RefLines(n, "Int()", pat) == x + pat + ")\n";
    assert pat[|clase|] == '.';
    assert forall m :: 0 <= m < |clase| ==> pat[m] == clase[m];
    assert '.' !in x;
    ReplaceAllFirst(x, pat, ")\n", r, |clase|);
    assert ReplaceAll(")\n", pat, r) == ")\n";
    assert RefLines(n, "Int()", r) == x + r + ")\n";
  }

  /** In x + "()" + z + "(" + w, where no other '(' occurs and w does not
      start with ')', only the first pair of parentheses is replaced. */
  lemma ReplaceFirstParens(x: string, z: string, w: string, r: string)
    requires '(' !in x && '(' !in z && '(' !in w && w != [] && w[0] != ')'
    ensures ReplaceAll(x + "()" + (z + ("(" + w)), "()", r) == x + r + (z + ("(" + w))
  {
    ReplaceAllFirst(x, "()", z + ("(" + w), r, 0);
    ReplaceAllSkip(z, "(" + w, "()", r);
    assert ("(" + w)[..2] != "()" by { assert ("(" + w)[..2][1] == w[0]; }
    assert ("(" + w)[1..] == w;
    ReplaceAllAbsent(w, "()", r);
  }

  lemma RefLinesParts(n: string, columna: string, destino: string)
    ensures RefLines(n, columna, destino) ==
            ("    " + n + "_id = " + columna) + (("\n    " + n + " = Reference") + ("(" + (n + "_id, " + destino + ")\n")))
  {
  }

  /** Marking the column primary touches only the `()` after `Int`. */
  lemma RefPrimary(n: string, destino: string)
    requires IsName(n) && '(' !in destino
    ensures ReplaceAll(RefLines(n, "Int()", destino), "()", "(primary = True)")
            == RefLines(n, "Int(primary = True)", destino)
  {
    var x := "    " + n + "_id = Int";
    var z := "\n    " + n + " = Reference";
    var w := n + "_id, " + destino + ")\n";
    RefLinesParts(n, "Int()", destino);
    RefLinesParts(n, "Int(primary = True)", destino);
    assert "    " + n + "_id = " + "Int()" == x + "()";
    assert "    " + n + "_id = " + "Int(primary = True)" == x + "(primary = True)";
    assert w[0] != ')' by {
      if n == [] { assert w[0] == '_'; } else { assert w[0] == n[0]; }
    }
    assert '(' !in w;
    ReplaceFirstParens(x, z, w, "(primary = True)");
  }

  lemma RefCruzadoShape(a: Atributo)
    requires IsName(a.atributo) && IsName(a.referencia)
    ensures var clase := Capitalize(a.referencia);
            RefCruzado(a) ==
              RefLines(a.atributo, "Int()", if a.cruzada == "True" then "\"" + clase + ".ide\"" else clase + ".ide")
  {
    var clase := Capitalize(a.referencia);
    CapitalizeName(a.referencia);
    if a.cruzada == "True" {
      RefQuote(a.atributo, clase);
    }
  }

  /** For plain names, the reference fragment is the two expected lines:
      `<a>_id = Int()` (or `Int(primary = True)`) and
      `<a> = Reference(<a>_id, <Clase>.ide)` (the target quoted when crossed). */
  lemma RefFragmentShape(a: Atributo)
    requires IsName(a.atributo) && IsName(a.referencia)
    ensures var clase := Capitalize(a.referencia);
            RefFragment(a) ==
              RefLines(a.atributo,
                       if a.primario == "True" then "Int(primary = True)" else "Int()",
                       if a.cruzada == "True" then "\"" + clase + ".ide\"" else clase + ".ide")
  {
    var clase := Capitalize(a.referencia);
    CapitalizeName(a.referencia);
    var destino := if a.cruzada == "True" then "\"" + clase + ".ide\"" else clase + ".ide";
    RefCruzadoShape(a);
    if a.primario == "True" {
      assert '(' !in destino;
      RefPrimary(a.atributo, destino);
    }
  }

  /** Before the first referenced attribute nothing is appended. */
  lemma {:induction false} ReferenciasBeforeFirst(atributos: seq<Atributo>)
    requires forall i :: 0 <= i < |atributos| ==> atributos[i].referencia == ""
    ensures Referencias(atributos) == RefState("", "")
  {
    if atributos != [] {
      ReferenciasBeforeFirst(atributos[..|atributos| - 1]);
    }
  }

  /** The carried fragment is that of the latest referenced attribute. */
  lemma {:induction false} ReferenciasUltimo(atributos: seq<Atributo>, j: int)
    requires 0 <= j < |atributos| && atributos[j].referencia != ""
    requires forall i :: j < i < |atributos| ==> atributos[i].referencia == ""
    ensures Referencias(atributos).ultimo == RefFragment(atributos[j])
  {
    if j < |atributos| - 1 {
      ReferenciasUltimo(atributos[..|atributos| - 1], j);
    }
  }

  /** An attribute without a reference re-appends the fragment of the latest
      referenced attribute before it. */
  lemma ReferenciasRepeat(p: seq<Atributo>, u: Atributo, j: int)
    requires u.referencia == ""
    requires 0 <= j < |p| && p[j].referencia != ""
    requires forall i :: j < i < |p| ==> p[i].referencia == ""
    ensures Referencias(p + [u]).out == Referencias(p).out + RefFragment(p[j])
  {
    ReferenciasUltimo(p, j);
    assert (p + [u])[..|p|] == p;
  }

  /** When every attribute is referenced, each contributes its own fragment once. */
  lemma {:induction false} ReferenciasAllReferenced(atributos: seq<Atributo>)
    requires forall i :: 0 <= i < |atributos| ==> atributos[i].referencia != ""
    ensures Referencias(atributos).out == ConcatMap(RefFragment, atributos)
  {
    if atributos != [] {
      ReferenciasAllReferenced(atributos[..|atributos| - 1]);
    }
  }

  // ---------------------------------------------------------------------
  // __generarAtributosSimples

  /** The surrogate key line written before every simple attribute. */
  const IdeLine: string := "    ide = Int(primary = True)\n"

  /** Which of the source's guarded replacements applies to a simple
      attribute; at most one guard holds. */
  datatype Politica =
    | Primario            // primario == 'True'
    | NotNullConDefecto   // primario == 'False', not_null == 'True', default != ''
    | NotNullSinDefecto   // primario == 'False', not_null == 'True', default == ''
    | NullableConDefecto  // primario == 'False', not_null == 'False', default != ''
    | SinModificador      // none of the above

  function PoliticaDe(a: Atributo): Politica
  {
    if a.primario == "True" then Primario
    else if a.primario == "False" && a.notNull == "True" then
      (if a.default != "" then NotNullConDefecto else NotNullSinDefecto)
    else if a.primario == "False" && a.notNull == "False" && a.default != "" then NullableConDefecto
    else SinModificador
  }

  /** Only Int and Unicode defaults go through `int()`. */
  predicate ConvierteEntero(a: Atributo)
  {
    a.stormType == "Int" || a.stormType == "Unicode"
  }

  function BaseLine(a: Atributo): string
  {
    "    " + a.atributo + " = " + a.stormType + "()\n"
  }

  /** One simple attribute, given `texto` as left by earlier attributes:
      its line and the new `texto`, or None for the ValueError of `int()`. */
  function SimpleStep(a: Atributo, texto: string): Option<(string, string)>
  {
    var base := BaseLine(a);
    match PoliticaDe(a)
    case Primario => Some((ReplaceAll(base, "()", "(primary = True)"), texto))
    case NotNullSinDefecto => Some((ReplaceAll(base, "()", "(allow_none = True)"), texto))
    case NotNullConDefecto =>
      if !ConvierteEntero(a) then Some((ReplaceAll(base, "()", texto), texto))
      else (match ParseInt(a.default)
            case None => None
            case Some(v) =>
              var t := "(allow_none = False, value_factory = " + IntToString(v) + ")";
              Some((ReplaceAll(base, "()", t), t)))
    case NullableConDefecto =>
      if !ConvierteEntero(a) then Some((ReplaceAll(base, "()", texto), texto))
      else (match ParseInt(a.default)
            case None => None
            case Some(v) =>
              var t := "(value_factory = " + IntToString(v) + ")";
              Some((ReplaceAll(base, "()", t), t)))
    case SinModificador => Some((base, texto))
  }

  /** The loop's state: running with the lines so far and `texto`, or stopped
      by a ValueError with the lines appended before it. */
  datatype SimplesState = Running(out: string, texto: string) | Raised(out: string)

  function Simples(atributos: seq<Atributo>): SimplesState
  {
    if atributos == [] then Running("", "")
    else
      var prev := Simples(atributos[..|atributos| - 1]);
      var a := atributos[|atributos| - 1];
      if prev.Raised? || a.referencia != "" then prev
      else match SimpleStep(a, prev.texto)
        case None => Raised(prev.out)
        case Some((line, t)) => Running(prev.out + line, t)
  }

  /** The attributes whose default makes `int()` raise. */
  predicate FallaConversion(a: Atributo)
  {
    a.referencia == "" && a.primario == "False" && (a.notNull == "True" || a.notNull == "False")
    && a.default != "" && ConvierteEntero(a) && ParseInt(a.default).None?
  }

  /** The attributes that (re)assign `texto`. */
  predicate FijaTexto(a: Atributo)
  {
    a.referencia == "" && a.primario == "False" && (a.notNull == "True" || a.notNull == "False")
    && a.default != "" && ConvierteEntero(a) && ParseInt(a.default).Some?
  }

  function TextoDe(a: Atributo): string
    requires FijaTexto(a)
  {
    var n := IntToString(ParseInt(a.default).value);
    if a.notNull == "True" then "(allow_none = False, value_factory = " + n + ")"
    else "(value_factory = " + n + ")"
  }

  lemma SimpleStepNone(a: Atributo, texto: string)
    requires a.referencia == ""
    ensures SimpleStep(a, texto).None? <==> FallaConversion(a)
    ensures FijaTexto(a) ==> SimpleStep(a, texto).Some? && SimpleStep(a, texto).value.1 == TextoDe(a)
    ensures !FijaTexto(a) && !FallaConversion(a) ==> SimpleStep(a, texto).Some? && SimpleStep(a, texto).value.1 == texto
  {
  }

  /** The conversion error is raised exactly when some simple attribute has a
      default that `int()` rejects, and then only the lines of the attributes
      before the first such one have been appended. */
  lemma {:induction false} SimplesRaised(atributos: seq<Atributo>)
    ensures Simples(atributos).Raised? <==>
            exists i :: 0 <= i < |atributos| && FallaConversion(atributos[i])
  {
    if atributos != [] {
      var p := atributos[..|atributos| - 1];
      var a := atributos[|atributos| - 1];
      SimplesRaised(p);
      if a.referencia == "" && Simples(p).Running? {
        SimpleStepNone(a, Simples(p).texto);
      }
      assert atributos == p + [a];
      FallaSnoc(p, a);
    }
  }

  lemma FallaSnoc(p: seq<Atributo>, a: Atributo)
    ensures (exists i :: 0 <= i < |p + [a]| && FallaConversion((p + [a])[i])) <==>
            (exists i :: 0 <= i < |p| && FallaConversion(p[i])) || FallaConversion(a)
  {
    if exists i :: 0 <= i < |p| && FallaConversion(p[i]) {
      var i :| 0 <= i < |p| && FallaConversion(p[i]);
      assert (p + [a])[i] == p[i];
    }
    if FallaConversion(a) {
      assert (p + [a])[|p|] == a;
    }
    if exists i :: 0 <= i < |p + [a]| && FallaConversion((p + [a])[i]) {
      var i :| 0 <= i < |p + [a]| && FallaConversion((p + [a])[i]);
      if i < |p| {
        assert (p + [a])[i] == p[i];
      }
    }
  }

  /** Once raised, later attributes change nothing. */
  lemma {:induction false} SimplesStaysRaised(atributos: seq<Atributo>, k: nat)
    requires k <= |atributos| && Simples(atributos[..k]).Raised?
    ensures Simples(atributos) == Simples(atributos[..k])
    decreases |atributos| - k
  {
    if k < |atributos| {
      var p := atributos[..k + 1];
      assert p[..k] == atributos[..k];
      SimplesStaysRaised(atributos, k + 1);
    } else {
      assert atributos[..k] == atributos;
    }
  }

  /** `texto` is the one set by the latest attribute that set it. */
  lemma {:induction false} SimplesTexto(atributos: seq<Atributo>, j: int)
    requires Simples(atributos).Running?
    requires 0 <= j < |atributos| && FijaTexto(atributos[j])
    requires forall i :: j < i < |atributos| ==> !FijaTexto(atributos[i])
    ensures Simples(atributos).texto == TextoDe(atributos[j])
  {
    var p := atributos[..|atributos| - 1];
    var a := atributos[|atributos| - 1];
    if Simples(p).Running? {
      if a.referencia == "" {
        SimpleStepNone(a, Simples(p).texto);
      }
      if j < |atributos| - 1 {
        SimplesTexto(p, j);
      }
    }
  }

  /** While no attribute has set it, `texto` keeps its initial value ''. */
  lemma {:induction false} SimplesTextoInicial(atributos: seq<Atributo>)
    requires Simples(atributos).Running?
    requires forall i :: 0 <= i < |atributos| ==> !FijaTexto(atributos[i])
    ensures Simples(atributos).texto == ""
  {
    if atributos != [] {
      var p := atributos[..|atributos| - 1];
      var a := atributos[|atributos| - 1];
      if Simples(p).Running? {
        if a.referencia == "" {
          SimpleStepNone(a, Simples(p).texto);
        }
        SimplesTextoInicial(p);
      }
    }
  }

  /** The attributes without a reference, in input order. */
  function SinReferencia(atributos: seq<Atributo>): seq<Atributo>
  {
    if atributos == [] then []
    else
      var p := SinReferencia(atributos[..|atributos| - 1]);
      var a := atributos[|atributos| - 1];
      if a.referencia == "" then p + [a] else p
  }

  /** Referenced attributes play no part in the simple lines: the loop over
      the whole list does what a loop over the unreferenced ones would. */
  lemma {:induction false} SimplesSinReferencias(atributos: seq<Atributo>)
    ensures Simples(atributos) == Simples(SinReferencia(atributos))
  {
    if atributos != [] {
      var p := atributos[..|atributos| - 1];
      var a := atributos[|atributos| - 1];
      SimplesSinReferencias(p);
      if a.referencia == "" {
        var q := SinReferencia(p) + [a];
        assert q[..|q| - 1] == SinReferencia(p);
        assert q[|q| - 1] == a;
      }
    }
  }

  /** The line of a simple attribute without a default; it does not depend
      on `texto`. */
  function LineaSinDefecto(a: Atributo): string
  {
    match SimpleStep(a, "")
    case Some((linea, _)) => linea
    case None => ""
  }

  /** When no attribute has a default value, the simple part is exactly one
      line per unreferenced attribute, in input order, and `texto` stays ''. */
  lemma {:induction false} SimplesSinDefecto(atributos: seq<Atributo>)
    requires forall i :: 0 <= i < |atributos| ==> atributos[i].default == ""
    ensures Simples(atributos) == Running(ConcatMap(LineaSinDefecto, SinReferencia(atributos)), "")
  {
    if atributos != [] {
      var p := atributos[..|atributos| - 1];
      var a := atributos[|atributos| - 1];
      assert forall i :: 0 <= i < |p| ==> p[i] == atributos[i];
      SimplesSinDefecto(p);
      if a.referencia == "" {
        var q := SinReferencia(p) + [a];
        assert q[..|q| - 1] == SinReferencia(p);
        assert q[|q| - 1] == a;
      }
    }
  }

  /** Replacing `()` in the line of a plainly named attribute touches only
      the parentheses after the type. */
  lemma BaseLineReplace(a: Atributo, m: string)
    requires IsName(a.atributo) && IsName(a.stormType)
    ensures ReplaceAll(BaseLine(a), "()", m) == "    " + a.atributo + " = " + a.stormType + m + "\n"
  {
    var x := "    " + a.atributo + " = " + a.stormType;
    assert BaseLine(a) == x + "()" + "\n";
    ReplaceAllFirst(x, "()", "\n", m, 0);
  }

  /** The line of a plainly named simple attribute without a default value,
      case by case: a primary key, a not-null column without a default (which
      the generator marks `allow_none = True`), and any other column. */
  lemma SimpleLineShape(a: Atributo, texto: string)
    requires a.referencia == "" && IsName(a.atributo) && IsName(a.stormType)
    ensures var decl := "    " + a.atributo + " = " + a.stormType;
      && (a.primario == "True" ==>
            SimpleStep(a, texto) == Some((decl + "(primary = True)\n", texto)))
      && (a.primario == "False" && a.notNull == "True" && a.default == "" ==>
            SimpleStep(a, texto) == Some((decl + "(allow_none = True)\n", texto)))
      && (a.primario != "True" && !(a.primario == "False" && a.notNull == "True")
          && !(a.primario == "False" && a.notNull == "False" && a.default != "") ==>
            SimpleStep(a, texto) == Some((decl + "()\n", texto)))
  {
    var decl := "    " + a.atributo + " = " + a.stormType;
    match PoliticaDe(a)
    case Primario =>
      BaseLineReplace(a, "(primary = True)");
      ConcatAssoc(decl, "(primary = True)", "\n");
      assert "(primary = True)" + "\n" == "(primary = True)\n";
    case NotNullSinDefecto =>
      BaseLineReplace(a, "(allow_none = True)");
      ConcatAssoc(decl, "(allow_none = True)", "\n");
      assert "(allow_none = True)" + "\n" == "(allow_none = True)\n";
    case SinModificador =>
    case _ =>
  }

  /** The line of a plainly named simple attribute with a default value: an
      Int or Unicode column gets the parsed value as `value_factory` (and
      `allow_none = False` when it is not null), and that text is kept; any
      other type reuses the text left by an earlier attribute. */
  lemma SimpleLineDefault(a: Atributo, texto: string)
    requires a.referencia == "" && IsName(a.atributo) && IsName(a.stormType)
    requires a.primario == "False" && (a.notNull == "True" || a.notNull == "False") && a.default != ""
    ensures var decl := "    " + a.atributo + " = " + a.stormType;
      && (FijaTexto(a) && a.notNull == "True" ==>
            SimpleStep(a, texto) == Some((decl + "(allow_none = False, value_factory = "
                                          + IntToString(ParseInt(a.default).value) + ")\n", TextoDe(a))))
      && (FijaTexto(a) && a.notNull == "False" ==>
            SimpleStep(a, texto) == Some((decl + "(value_factory = "
                                          + IntToString(ParseInt(a.default).value) + ")\n", TextoDe(a))))
      && (!ConvierteEntero(a) ==> SimpleStep(a, texto) == Some((decl + texto + "\n", texto)))
  {
    var decl := "    " + a.atributo + " = " + a.stormType;
    if !ConvierteEntero(a) {
      BaseLineReplace(a, texto);
    } else if FijaTexto(a) {
      var n := IntToString(ParseInt(a.default).value);
      BaseLineReplace(a, TextoDe(a));
      if a.notNull == "True" {
        ConcatAssoc(decl, "(allow_none = False, value_factory = " + n + ")", "\n");
        assert decl + TextoDe(a) + "\n" == decl + "(allow_none = False, value_factory = " + n + ")\n";
      } else {
        ConcatAssoc(decl, "(value_factory = " + n + ")", "\n");
        assert decl + TextoDe(a) + "\n" == decl + "(value_factory = " + n + ")\n";
      }
    }
  }

  // ---------------------------------------------------------------------
  // __generarSQLTable

  /** One column of the table literal, or None for the KeyError of a
      database or type missing from the table. */
  function SqlField(db: string, a: Atributo): Option<string>
  {
    match DatabaseTypes.ColumnType(db, a.stormType)
    case None => None
    case Some(tipo) =>
      Some("        " + Lower(a.atributo) + " " + tipo
           + (if a.primario == "True" then " PRIMARY KEY"
              else if a.notNull == "True" then " NOT NULL" else ""))
  }

  /** The columns of all attributes in order, or None when any lookup fails. */
  function SqlFields(db: string, atributos: seq<Atributo>): (r: Option<seq<string>>)
    ensures r.None? <==>
            exists i :: 0 <= i < |atributos| && DatabaseTypes.ColumnType(db, atributos[i].stormType).None?
    ensures r.Some? ==>
              |r.value| == |atributos| &&
              forall i :: 0 <= i < |atributos| ==> SqlField(db, atributos[i]) == Some(r.value[i])
  {
    if atributos == [] then Some([])
    else
      var p := atributos[..|atributos| - 1];
      var a := atributos[|atributos| - 1];
      assert forall i :: 0 <= i < |p| ==> p[i] == atributos[i];
      match SqlFields(db, p)
      case None => None
      case Some(fs) =>
        match SqlField(db, a)
        case None => None
        case Some(f) => Some(fs + [f])
  }

  /** Every line followed by the separator. */
  function Terminated(lines: seq<string>, sep: string): string
  {
    if lines == [] then "" else Terminated(lines[..|lines| - 1], sep) + lines[|lines| - 1] + sep
  }

  lemma TerminatedSnoc(lines: seq<string>, line: string, sep: string)
    ensures Terminated(lines + [line], sep) == Terminated(lines, sep) + line + sep
  {
    assert (lines + [line])[..|lines|] == lines;
  }

  /** The lines with the separator between them. */
  function Join(lines: seq<string>, sep: string): string
  {
    if lines == [] then ""
    else if |lines| == 1 then lines[0]
    else Join(lines[..|lines| - 1], sep) + sep + lines[|lines| - 1]
  }

  /** Cutting the last separator off the terminated lines joins them. */
  lemma {:induction false} DropLastSeparator(lines: seq<string>, sep: string)
    ensures DropLast(Terminated(lines, sep), |sep|) == Join(lines, sep)
  {
    if |lines| == 1 {
      assert lines[..0] == [];
      assert Terminated(lines, sep) == lines[0] + sep;
      assert (lines[0] + sep)[..|lines[0]|] == lines[0];
    } else if |lines| > 1 {
      var p := lines[..|lines| - 1];
      var last := lines[|lines| - 1];
      var t := Terminated(p, sep);
      DropLastSeparator(p, sep);
      assert |t| >= |sep| by {
        assert t == Terminated(p[..|p| - 1], sep) + p[|p| - 1] + sep;
      }
      var u := t[..|t| - |sep|];
      assert t == u + sep;
      assert Join(p, sep) == u;
      var whole := t + last + sep;
      assert Terminated(lines, sep) == whole;
      assert whole[..|whole| - |sep|] == u + sep + last;
    }
  }

  /** The triple-quoted literal that wraps the columns. */
  function SqlEnvelope(campos: string): string
  {
    "'''\n        (\n" + campos + "\n        )'''"
  }
}
