/** The generator object LogicStormClass: six accumulator fields that the
    fragment generators append to, and generarClase, which runs the
    generators and fills the template with the fragments. */
module LogicStorm {
  import opened PyStr
  import opened Fragments
  import opened Template
  import DatabaseTypes

  /** The exceptions that end generarClase early: the ValueError of `int()`
      on a default, the KeyError of a missing database or type, and a name
      with a double space, on which `__normalizarCampo` never returns. */
  datatype Failure = ValueError | KeyError | NonTermination

  datatype Result<T> = Ok(value: T) | Err(failure: Failure)

  /** The values of the accumulator fields. */
  datatype Estado = Estado(
    imports: string,
    atributosClase: string,
    atributosInit: string,
    parametros: string,
    sqlTable: string,
    tieneReferencia: bool)

  /** The fields as `__init__` leaves them. */
  const Inicial: Estado := Estado("", "", "", "", "", false)

  /** The fields after the five generators have run to the end on an
      instance whose fields held `e`. */
  function Campos(e: Estado, atributos: seq<Atributo>): Estado
  {
    Estado(e.imports + Imports(atributos),
           e.atributosClase + IdeLine + Simples(atributos).out + Referencias(atributos).out,
           e.atributosInit + AtributosInit(atributos),
           Parametros(e.parametros, atributos),
           e.sqlTable,
           e.tieneReferencia || HasReference(atributos))
  }

  /** One generarClase call on an instance whose fields hold `e`, with the
      template text as a parameter: the fields afterwards and the outcome.
      The generators run in order imports, simple attributes, references,
      `__init__` body, parameters; the SQL table generator is not called, so
      `sqlTable` keeps its value. A conversion error stops the simple
      attributes part way, after the imports. */
  function Generar(e: Estado, nombreClase: string, atributos: seq<Atributo>, plantilla: string)
    : (Estado, Result<string>)
  {
    var simples := Simples(atributos);
    if simples.Raised? then
      (e.(imports := e.imports + Imports(atributos), atributosClase := e.atributosClase + IdeLine + simples.out),
       Err(ValueError))
    else
      var d := Campos(e, atributos);
      match NormalizarCampo(Capitalize(nombreClase))
      case None => (d, Err(NonTermination))
      case Some(nombre) =>
        (d, Ok(Render(plantilla, nombre, d.imports, d.atributosClase, d.parametros, d.atributosInit,
                      d.sqlTable, d.tieneReferencia)))
  }

  // ---------------------------------------------------------------------
  // What one generarClase call does

  /** The conversion error ends the call exactly when some simple attribute
      has an Int or Unicode default that `int()` rejects, whatever the
      fields held before. */
  lemma GenerarValueError(e: Estado, nombreClase: string, atributos: seq<Atributo>, plantilla: string)
    ensures Generar(e, nombreClase, atributos, plantilla).1 == Err(ValueError) <==>
            exists i :: 0 <= i < |atributos| && FallaConversion(atributos[i])
  {
    SimplesRaised(atributos);
  }

  /** Without a conversion error, the call runs forever exactly when the
      class name contains two consecutive spaces. */
  lemma GenerarNonTermination(e: Estado, nombreClase: string, atributos: seq<Atributo>, plantilla: string)
    ensures Generar(e, nombreClase, atributos, plantilla).1 == Err(NonTermination) <==>
            (forall i :: 0 <= i < |atributos| ==> !FallaConversion(atributos[i])) &&
            exists j :: MatchAt(nombreClase, "  ", j)
  {
    SimplesRaised(atributos);
    CapitalizeDoubleSpace(nombreClase);
  }

  /** Without a conversion error every generator runs to the end. */
  lemma GenerarCompleto(e: Estado, nombreClase: string, atributos: seq<Atributo>, plantilla: string)
    requires forall i :: 0 <= i < |atributos| ==> !FallaConversion(atributos[i])
    ensures Generar(e, nombreClase, atributos, plantilla).0 == Campos(e, atributos)
  {
    SimplesRaised(atributos);
  }

  /** The fields after one call on a fresh instance: the class attributes
      are the `ide` line, the simple attributes, then the references; the
      parameters are ',  a, b, c'; the SQL table stays empty; the flag says
      whether some attribute is a reference. */
  lemma CamposIniciales(atributos: seq<Atributo>)
    ensures var e := Campos(Inicial, atributos);
      && e.imports == Imports(atributos)
      && e.atributosClase == IdeLine + Simples(atributos).out + Referencias(atributos).out
      && e.atributosInit == AtributosInit(atributos)
      && e.parametros == (if |atributos| == 0 then "" else ",  " + JoinNames(atributos))
      && e.sqlTable == ""
      && e.tieneReferencia == HasReference(atributos)
  {
    ParametrosFresh(atributos);
    ConcatEmpty(Imports(atributos));
    ConcatEmpty(AtributosInit(atributos));
    ConcatEmpty(IdeLine);
  }

  /** The name the template receives: the capitalised class name with every
      space turned into an underscore. */
  lemma NombreNormalizado(nombreClase: string)
    requires forall j :: !MatchAt(nombreClase, "  ", j)
    ensures NormalizarCampo(Capitalize(nombreClase)) == Some(ReplaceAll(Capitalize(nombreClase), " ", "_"))
    ensures '$' !in nombreClase ==> '$' !in ReplaceAll(Capitalize(nombreClase), " ", "_")
  {
    CapitalizeDoubleSpace(nombreClase);
    if '$' !in nombreClase {
      CapitalizeKeepsOut(nombreClase, '$');
      ReplaceAllKeepsOut(Capitalize(nombreClase), " ", "_", '$');
    }
  }

  /** A successful call fills a template holding one placeholder with the
      text that placeholder stands for, and changes nothing else. */
  lemma GenerarPlaceholder(e: Estado, nombreClase: string, atributos: seq<Atributo>, x: string, y: string, k: nat)
    requires forall i :: 0 <= i < |atributos| ==> !FallaConversion(atributos[i])
    requires forall j :: !MatchAt(nombreClase, "  ", j)
    requires k < |Placeholders| && '$' !in x && '$' !in y
    ensures var g := Generar(e, nombreClase, atributos, x + Placeholders[k] + y);
      var d := g.0;
      var v := Valores(ReplaceAll(Capitalize(nombreClase), " ", "_"), d.imports, d.atributosClase,
                       d.parametros, d.atributosInit, d.sqlTable, d.tieneReferencia)[k];
      '$' !in v ==> g.1 == Ok(x + v + y)
  {
    GenerarCompleto(e, nombreClase, atributos, x + Placeholders[k] + y);
    NombreNormalizado(nombreClase);
    var d := Campos(e, atributos);
    var nombre := ReplaceAll(Capitalize(nombreClase), " ", "_");
    var v := Valores(nombre, d.imports, d.atributosClase, d.parametros, d.atributosInit, d.sqlTable,
                     d.tieneReferencia)[k];
    if '$' !in v {
      RenderOnePlaceholder(x, y, k, nombre, d.imports, d.atributosClase, d.parametros, d.atributosInit,
                           d.sqlTable, d.tieneReferencia);
    }
  }

  /** On a template with any number of placeholders, each occurring any
      number of times: when the class name and the fragments hold no `$`,
      every hole receives its text, both name placeholders the normalised
      name. */
  lemma GenerarPlantilla(e: Estado, nombreClase: string, atributos: seq<Atributo>, segs: seq<Segmento>)
    requires forall i :: 0 <= i < |atributos| ==> !FallaConversion(atributos[i])
    requires forall j :: !MatchAt(nombreClase, "  ", j)
    requires BienFormada(segs, |Placeholders|)
    requires '$' !in nombreClase
    requires var d := Campos(e, atributos);
      '$' !in d.imports && '$' !in d.atributosClase && '$' !in d.parametros && '$' !in d.atributosInit &&
      '$' !in d.sqlTable
    ensures var d := Campos(e, atributos);
      Generar(e, nombreClase, atributos, Relleno(segs, Placeholders)).1
      == Ok(Relleno(segs, Valores(ReplaceAll(Capitalize(nombreClase), " ", "_"), d.imports, d.atributosClase,
                                  d.parametros, d.atributosInit, d.sqlTable, d.tieneReferencia)))
  {
    var d := Campos(e, atributos);
    GenerarCompleto(e, nombreClase, atributos, Relleno(segs, Placeholders));
    NombreNormalizado(nombreClase);
    RenderPlantilla(segs, ReplaceAll(Capitalize(nombreClase), " ", "_"), d.imports, d.atributosClase,
                    d.parametros, d.atributosInit, d.sqlTable, d.tieneReferencia);
  }

  /** A fresh instance with a template naming the class twice, as in
      `class $nombre_clase$(...)` and `$nombre_objeto$ = ...`: both places
      receive the same normalised name. */
  lemma GenerarNombreDosVeces(nombreClase: string, atributos: seq<Atributo>, x: string, y: string, z: string)
    requires forall i :: 0 <= i < |atributos| ==> !FallaConversion(atributos[i])
    requires forall j :: !MatchAt(nombreClase, "  ", j)
    requires '$' !in nombreClase && '$' !in x && '$' !in y && '$' !in z
    requires Separador(y)
    requires var d := Campos(Inicial, atributos);
      '$' !in d.imports && '$' !in d.atributosClase && '$' !in d.parametros && '$' !in d.atributosInit
    ensures var nombre := ReplaceAll(Capitalize(nombreClase), " ", "_");
      Generar(Inicial, nombreClase, atributos, x + NombreClase + y + NombreObjeto + z).1
      == Ok(x + nombre + y + nombre + z)
  {
    var segs := [Texto(x), Hueco(0), Texto(y), Hueco(1), Texto(z)];
    var nombre := ReplaceAll(Capitalize(nombreClase), " ", "_");
    var d := Campos(Inicial, atributos);
    var vs := Valores(nombre, d.imports, d.atributosClase, d.parametros, d.atributosInit, d.sqlTable,
                      d.tieneReferencia);
    assert Relleno(segs, Placeholders) == x + NombreClase + y + NombreObjeto + z by {
      DosHuecos(x, 0, y, 1, z, Placeholders);
    }
    assert Relleno(segs, vs) == x + nombre + y + nombre + z by {
      DosHuecos(x, 0, y, 1, z, vs);
    }
    DosHuecosBienFormada(x, 0, y, 1, z, |Placeholders|);
    GenerarPlantilla(Inicial, nombreClase, atributos, segs);
  }

  /** On a fresh instance `$herencia$` becomes `Storm` when some attribute is
      a reference and `object` otherwise. */
  lemma GenerarHerencia(nombreClase: string, atributos: seq<Atributo>, x: string, y: string)
    requires forall i :: 0 <= i < |atributos| ==> !FallaConversion(atributos[i])
    requires forall j :: !MatchAt(nombreClase, "  ", j)
    requires '$' !in x && '$' !in y
    ensures Generar(Inicial, nombreClase, atributos, x + Herencia + y).1
            == Ok(x + (if HasReference(atributos) then "Storm" else "object") + y)
  {
    GenerarCompleto(Inicial, nombreClase, atributos, x + Herencia + y);
    CamposIniciales(atributos);
    GenerarPlaceholder(Inicial, nombreClase, atributos, x, y, 7);
  }

  /** On a fresh instance `$sql_table$` becomes an empty triple-quoted
      literal, since the SQL table generator is never called. */
  lemma GenerarSqlTable(nombreClase: string, atributos: seq<Atributo>, x: string, y: string)
    requires forall i :: 0 <= i < |atributos| ==> !FallaConversion(atributos[i])
    requires forall j :: !MatchAt(nombreClase, "  ", j)
    requires '$' !in x && '$' !in y
    ensures Generar(Inicial, nombreClase, atributos, x + SqlTableP + y).1 == Ok(x + "''''''" + y)
  {
    GenerarCompleto(Inicial, nombreClase, atributos, x + SqlTableP + y);
    CamposIniciales(atributos);
    GenerarPlaceholder(Inicial, nombreClase, atributos, x, y, 6);
  }

  /** `$nombre_clase$` becomes the normalised name: as long as the class
      name, capitalised, with each space turned into an underscore. */
  lemma GenerarNombre(nombreClase: string, atributos: seq<Atributo>, x: string, y: string)
    requires forall i :: 0 <= i < |atributos| ==> !FallaConversion(atributos[i])
    requires forall j :: !MatchAt(nombreClase, "  ", j)
    requires '$' !in x && '$' !in y && '$' !in nombreClase
    ensures var r := Generar(Inicial, nombreClase, atributos, x + NombreClase + y).1;
      && r.Ok? && |r.value| == |x| + |nombreClase| + |y|
      && r.value[..|x|] == x && r.value[|x| + |nombreClase|..] == y
      && forall i :: 0 <= i < |nombreClase| ==>
           r.value[|x| + i] == if nombreClase[i] == ' ' then '_' else Capitalize(nombreClase)[i]
  {
    var n := ReplaceAll(Capitalize(nombreClase), " ", "_");
    NombreNormalizado(nombreClase);
    GenerarPlaceholder(Inicial, nombreClase, atributos, x, y, 0);
    CapitalizeSpaces(nombreClase);
    ReplaceCharAt(Capitalize(nombreClase), ' ', '_');
    var t := x + n + y;
    forall i | 0 <= i < |nombreClase|
      ensures t[|x| + i] == if nombreClase[i] == ' ' then '_' else Capitalize(nombreClase)[i]
    {
      assert t[|x| + i] == n[i];
    }
  }

  /** The fields are never reset: a second successful call with the same
      attributes on the same instance appends every fragment again, and the
      parameter list gains a second leading ', ' and the names again:
      ', ,  a, b a, b'. */
  lemma CamposDosVeces(atributos: seq<Atributo>)
    requires |atributos| > 0
    ensures var e1 := Campos(Inicial, atributos);
      var e2 := Campos(e1, atributos);
      var j := JoinNames(atributos);
      && e2.imports == e1.imports + e1.imports
      && e2.atributosClase == e1.atributosClase + e1.atributosClase
      && e2.atributosInit == e1.atributosInit + e1.atributosInit
      && e1.parametros == ",  " + j
      && e2.parametros == ", " + e1.parametros + " " + j
      && e2.tieneReferencia == e1.tieneReferencia
  {
    CamposIniciales(atributos);
    var e1 := Campos(Inicial, atributos);
    var s := Simples(atributos).out;
    ConcatAssoc(e1.atributosClase, IdeLine, s);
    ConcatAssoc(e1.atributosClase, IdeLine + s, Referencias(atributos).out);
    var j := JoinNames(atributos);
    var a := ",  " + j;
    var b := " " + j;
    ParamItemsJoined(atributos);
    ConcatAssoc(a, b, ",");
    assert DropLast(a + b + ",", 1) == a + b by {
      assert (a + b + ",")[..|a + b|] == a + b;
    }
    ConcatAssoc(", ", a, b);
    ConcatAssoc(", " + a, " ", j);
  }

  class LogicStormClass {
    var imports: string
    var atributosClase: string
    var atributosInit: string
    var parametros: string
    var sqlTable: string
    var tieneReferencia: bool

    function EstadoActual(): Estado
      reads this
    {
      Estado(imports, atributosClase, atributosInit, parametros, sqlTable, tieneReferencia)
    }

    constructor ()
      ensures EstadoActual() == Inicial
    {
      imports := "";
      atributosClase := "";
      atributosInit := "";
      parametros := "";
      sqlTable := "";
      tieneReferencia := false;
    }

    /** `__generarImports`: one import line per attribute that references an
        entity without a cross reference. */
    method GenerarImports(atributos: seq<Atributo>)
      modifies this`imports
      ensures imports == old(imports) + Imports(atributos)
    {
      for i := 0 to |atributos|
        invariant imports == old(imports) + Imports(atributos[..i])
      {
        var a := atributos[i];
        assert atributos[..i + 1][..i] == atributos[..i];
        if a.referencia != "" {
          if a.cruzada == "False" {
            var unImport := "from " + Lower(a.referencia) + " import " + Capitalize(a.referencia) + "\n";
            ConcatAssoc(old(imports), Imports(atributos[..i]), unImport);
            imports := imports + unImport;
          }
        }
      }
      assert atributos[..|atributos|] == atributos;
    }

    /** The body of the loop of `__generarAtributosSimples` for one attribute
        without a reference: its line and the new `texto`, or None where
        `int()` raises. The guards are tested one after the other, as in the
        source; at most one of them holds. */
    method LineaSimple(a: Atributo, texto: string) returns (paso: Option<(string, string)>)
      ensures paso == SimpleStep(a, texto)
    {
      var nuevoTexto := texto;
      var linea := BaseLine(a);
      if a.primario == "True" {
        linea := ReplaceAll(linea, "()", "(primary = True)");
      }
      if a.primario == "False" && a.notNull == "True" && a.default != "" {
        if a.stormType == "Int" || a.stormType == "Unicode" {
          var valor := ParseInt(a.default);
          if valor.None? {
            return None;
          }
          nuevoTexto := "(allow_none = False, value_factory = " + IntToString(valor.value) + ")";
        }
        linea := ReplaceAll(linea, "()", nuevoTexto);
      }
      if a.primario == "False" && a.notNull == "True" && a.default == "" {
        linea := ReplaceAll(linea, "()", "(allow_none = True)");
      }
      if a.primario == "False" && a.notNull == "False" && a.default != "" {
        if a.stormType == "Int" || a.stormType == "Unicode" {
          var valor := ParseInt(a.default);
          if valor.None? {
            return None;
          }
          nuevoTexto := "(value_factory = " + IntToString(valor.value) + ")";
        }
        linea := ReplaceAll(linea, "()", nuevoTexto);
      }
      return Some((linea, nuevoTexto));
    }

    /** `__generarAtributosSimples`: the `ide` line, then one line per
        attribute without a reference; false when `int()` rejects a default,
        with the lines before that attribute already appended. */
    method GenerarAtributosSimples(atributos: seq<Atributo>) returns (ok: bool)
      modifies this`atributosClase
      ensures ok <==> Simples(atributos).Running?
      ensures atributosClase == old(atributosClase) + IdeLine + Simples(atributos).out
    {
      atributosClase := atributosClase + IdeLine;
      var texto := "";
      for i := 0 to |atributos|
        invariant Simples(atributos[..i]).Running?
        invariant atributosClase == old(atributosClase) + IdeLine + Simples(atributos[..i]).out
        invariant texto == Simples(atributos[..i]).texto
      {
        var a := atributos[i];
        assert atributos[..i + 1][..i] == atributos[..i];
        if a.referencia == "" {
          var paso := LineaSimple(a, texto);
          if paso.None? {
            SimplesStaysRaised(atributos, i + 1);
            return false;
          }
          var linea := paso.value.0;
          texto := paso.value.1;
          ConcatAssoc(old(atributosClase) + IdeLine, Simples(atributos[..i]).out, linea);
          atributosClase := atributosClase + linea;
        }
      }
      assert atributos[..|atributos|] == atributos;
      return true;
    }

    /** The two declarations `__generarReferencias` builds for a referenced
        attribute: the format string filled in, the target quoted for a cross
        reference, the column made primary for a primary attribute. The
        method takes the source's steps one reassignment at a time, each under
        its own guard; `RefFragment` states the result as one expression, and
        the lemmas about the fragment are stated on it. */
    method FragmentoReferencia(a: Atributo) returns (fragmento: string)
      ensures fragmento == RefFragment(a)
    {
      var clase := Capitalize(a.referencia);
      fragmento := RefLines(a.atributo, "Int()", clase + ".ide");
      if a.cruzada == "True" {
        fragmento := ReplaceAll(fragmento, clase + ".ide", "\"" + clase + ".ide\"");
      }
      if a.primario == "True" {
        fragmento := ReplaceAll(fragmento, "()", "(primary = True)");
      }
    }

    /** `__generarReferencias`: per attribute, the fragment of the latest
        referenced attribute so far (its own when it has a reference). */
    method GenerarReferencias(atributos: seq<Atributo>)
      modifies this`atributosClase, this`tieneReferencia
      ensures atributosClase == old(atributosClase) + Referencias(atributos).out
      ensures tieneReferencia <==> old(tieneReferencia) || HasReference(atributos)
    {
      var ultimo := "";
      for i := 0 to |atributos|
        invariant atributosClase == old(atributosClase) + Referencias(atributos[..i]).out
        invariant ultimo == Referencias(atributos[..i]).ultimo
        invariant tieneReferencia <==> old(tieneReferencia) || HasReference(atributos[..i])
      {
        var a := atributos[i];
        assert atributos[..i + 1][..i] == atributos[..i];
        assert atributos[..i + 1][i] == a;
        assert HasReference(atributos[..i + 1]) <==> HasReference(atributos[..i]) || a.referencia != "" by {
          assert atributos[..i + 1] == atributos[..i] + [a];
          HasReferenceSnoc(atributos[..i], a);
        }
        if a.referencia != "" {
          ultimo := FragmentoReferencia(a);
          tieneReferencia := true;
        }
        ConcatAssoc(old(atributosClase), Referencias(atributos[..i]).out, ultimo);
        atributosClase := atributosClase + ultimo;
      }
      assert atributos[..|atributos|] == atributos;
    }

    /** `__generarAtributosInit`: one `self.x = x` line per attribute. */
    method GenerarAtributosInit(atributos: seq<Atributo>)
      modifies this`atributosInit
      ensures atributosInit == old(atributosInit) + AtributosInit(atributos)
    {
      for i := 0 to |atributos|
        invariant atributosInit == old(atributosInit) + AtributosInit(atributos[..i])
      {
        var a := atributos[i];
        assert atributos[..i + 1][..i] == atributos[..i];
        var atributoInit := "        self." + Lower(a.atributo) + " = " + Lower(a.atributo) + "\n";
        ConcatAssoc(old(atributosInit), AtributosInit(atributos[..i]), atributoInit);
        atributosInit := atributosInit + atributoInit;
      }
      assert atributos[..|atributos|] == atributos;
    }

    /** `__generarParametrosInit`. */
    method GenerarParametrosInit(atributos: seq<Atributo>)
      modifies this`parametros
      ensures parametros == Parametros(old(parametros), atributos)
    {
      for i := 0 to |atributos|
        invariant parametros == old(parametros) + ConcatMap(ParamItem, atributos[..i])
      {
        var a := atributos[i];
        assert atributos[..i + 1][..i] == atributos[..i];
        var unParametro := " " + Lower(a.atributo) + ",";
        ConcatAssoc(old(parametros), ConcatMap(ParamItem, atributos[..i]), unParametro);
        parametros := parametros + unParametro;
      }
      assert atributos[..|atributos|] == atributos;
      if |atributos| > 0 {
        parametros := ", " + DropLast(parametros, 1);
      }
    }

    /** `__generarSQLTable`: the column list of the table literal; false for
        the KeyError of a database or type missing from the table, which
        leaves the field as it was. */
    method GenerarSQLTable(database: string, atributos: seq<Atributo>) returns (ok: bool)
      modifies this`sqlTable
      ensures ok <==> SqlFields(database, atributos).Some?
      ensures ok ==> sqlTable == SqlEnvelope(Join(SqlFields(database, atributos).value, ",\n"))
      ensures !ok ==> sqlTable == old(sqlTable)
    {
      var campos := "";
      for i := 0 to |atributos|
        invariant SqlFields(database, atributos[..i]).Some?
        invariant campos == Terminated(SqlFields(database, atributos[..i]).value, ",\n")
        invariant sqlTable == old(sqlTable)
      {
        var a := atributos[i];
        ghost var columnas := SqlFields(database, atributos[..i]).value;
        var tipo := DatabaseTypes.ColumnType(database, a.stormType);
        if tipo.None? {
          assert DatabaseTypes.ColumnType(database, atributos[i].stormType).None?;
          return false;
        }
        var campo := "        " + Lower(a.atributo) + " " + tipo.value;
        if a.primario == "True" {
          campo := campo + " PRIMARY KEY";
        } else {
          if a.notNull == "True" {
            campo := campo + " NOT NULL";
          } else {
            assert campo + "" == campo;
          }
        }
        assert SqlField(database, a) == Some(campo);
        assert atributos[..i + 1][..i] == atributos[..i];
        assert SqlFields(database, atributos[..i + 1]) == Some(columnas + [campo]);
        TerminatedSnoc(columnas, campo, ",\n");
        campos := campos + campo + ",\n";
      }
      assert atributos[..|atributos|] == atributos;
      DropLastSeparator(SqlFields(database, atributos).value, ",\n");
      campos := DropLast(campos, 2);
      sqlTable := SqlEnvelope(campos);
      return true;
    }

    /** The substitution part of `generarClase`: each placeholder of the
        template replaced, in order, by the field it stands for. The method
        keeps the source's if/else on each field, including the branches that
        replace a placeholder by an empty field with `''`; it is proved equal
        to `Render`, which states the substitution without them and which
        the lemmas about templates use. */
    method Rellenar(plantilla: string, nombre: string) returns (clase: string)
      ensures clase == Render(plantilla, nombre, imports, atributosClase, parametros, atributosInit, sqlTable,
                              tieneReferencia)
    {
      clase := plantilla;
      clase := ReplaceAll(clase, NombreClase, nombre);
      clase := ReplaceAll(clase, NombreObjeto, nombre);
      if imports != "" {
        clase := ReplaceAll(clase, ImportsP, imports);
      } else {
        clase := ReplaceAll(clase, ImportsP, "");
      }
      if atributosClase != "" {
        clase := ReplaceAll(clase, AtributosClaseP, atributosClase);
      } else {
        clase := ReplaceAll(clase, AtributosClaseP, "");
      }
      if parametros != "" {
        clase := ReplaceAll(clase, ParametrosP, parametros);
      } else {
        clase := ReplaceAll(clase, ParametrosP, "");
      }
      if atributosInit != "" {
        clase := ReplaceAll(clase, AtributosInitP, atributosInit);
      } else {
        clase := ReplaceAll(clase, AtributosInitP, "");
      }
      if sqlTable != "" {
        clase := ReplaceAll(clase, SqlTableP, sqlTable);
      } else {
        clase := ReplaceAll(clase, SqlTableP, "''''''");
      }
      if tieneReferencia {
        clase := ReplaceAll(clase, Herencia, "Storm");
      } else {
        clase := ReplaceAll(clase, Herencia, "object");
      }
    }

    /** `generarClase` up to the text of the class, before it is written:
        the template text is a parameter. */
    method GenerarClase(nombreClase: string, atributos: seq<Atributo>, plantilla: string)
      returns (r: Result<string>)
      modifies this`imports, this`atributosClase, this`atributosInit, this`parametros, this`tieneReferencia
      ensures (EstadoActual(), r) == Generar(old(EstadoActual()), nombreClase, atributos, plantilla)
    {
      GenerarImports(atributos);
      var ok := GenerarAtributosSimples(atributos);
      if !ok {
        return Err(ValueError);
      }
      GenerarReferencias(atributos);
      GenerarAtributosInit(atributos);
      GenerarParametrosInit(atributos);
      assert EstadoActual() == Campos(old(EstadoActual()), atributos);

      var nombre := NormalizarCampo(Capitalize(nombreClase));
      if nombre.None? {
        return Err(NonTermination);
      }
      var clase := Rellenar(plantilla, nombre.value);
      return Ok(clase);
    }
  }
}
