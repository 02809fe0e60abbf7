# LogicStormClass, modelled in Dafny

`LogicStormClass` (in `maker/logic_storm_class.py`) generates the source text of a
Storm ORM class. Its input is an entity name and a list of attribute dictionaries.
Five private generators walk the attribute list and append text to instance
fields:

- `__generarImports`
- `__generarAtributosSimples`
- `__generarReferencias`
- `__generarAtributosInit`
- `__generarParametrosInit`

`generarClase` then runs them. It normalises the class name and replaces the
`$...$` placeholders of a template with those fields, one after the other. A sixth
generator, `__generarSQLTable`, is backed by the static `database_types` table. It
builds a triple-quoted column list, but `generarClase` never calls it.

The project has five modules:

- `PyStr` (`pystr.dfy`) holds the Python 2 string operations the generator uses:
  - `str.replace` (non-overlapping, left to right), `str.find`, and `s[:-n]`;
  - ASCII `lower` and `capitalize`;
  - `int()` as an `Option`-valued parser, and `'%d' % n`.
- `DatabaseTypes` (`database_types.dfy`) holds the `database_types` table and its
  lookup.
- `Fragments` (`fragments.dfy`) holds the attribute record. It also holds the
  specification functions: for each generator, what it appends, as a function of
  the attribute list. Lemmas say what those fragments look like.
- `Template` (`template.dfy`) holds the placeholder substitution and
  `__normalizarCampo`.
- `LogicStorm` (`logic_storm_class.dfy`) holds the class itself:
  - `LogicStormClass` has the six accumulator fields. Each generator is a method
    with a loop, proved to leave in its field exactly what its specification
    function gives for the old value:
    - the imports, `__init__` body and references generators append their
      fragment;
    - the simple attributes generator appends its lines, or stops at the first
      default that `int()` rejects;
    - the parameters generator appends its items, then cuts the last character
      and puts `', '` in front;
    - the SQL table generator assigns its field, or leaves it alone when a
      lookup misses.
  - `GenerarClase` runs the generators and fills the template.
  - `Generar` is its functional specification. Lemmas about `Generar` give the
    outcome of a call on a fresh instance, for templates with one placeholder
    and with any number of them. `CamposDosVeces` gives the fields after a
    second call on the same instance.

The fields are initialised only by the constructor and never reset, as in the
source. Every method therefore states the new field value in terms of the old one.
The fresh-instance properties are lemmas about `Generar(Inicial, ...)`.

Quirks of the code that the model reproduces:

- **Name normalisation.** The loop in `__normalizarCampo` calls
  `campo.replace('  ', ' ')` and drops the result. A class name with two consecutive
  spaces therefore never finishes normalising; the model gives this call the
  outcome `NonTermination`. Spaces are never collapsed, and the name is capitalised
  before it is normalised.
- **Not-null without a default.** A not-null attribute without a default is
  written `(allow_none = True)`.
- **Other types with a default.** A non-primary attribute with a default whose type
  is neither `Int` nor `Unicode` receives the `texto` left by an earlier attribute.
  That `texto` is `''` initially.
- **Unreferenced attributes.** Every attribute without a reference re-appends the
  fragment of the latest referenced attribute, because the append is outside the
  `if`.
- **Parameter list.** The parameter list is `',  a, b, c'`, with two spaces after
  the first comma.
- **Repeated calls.** A second call on the same instance appends every fragment
  again. The rendered text therefore changes wherever the template holds a
  placeholder for one of the grown fields.

## Model

| member | source | states |
|---|---|---|
| PyStr.Find | maker/logic_storm_class.py:312 | `find` returns -1 exactly when the pattern occurs nowhere; otherwise it returns the first position where it occurs |
| PyStr.ParseIntOfIntToString | maker/logic_storm_class.py:232-233 | parsing the `%d` rendering of any integer gives the integer back |
| PyStr.CapitalizeDoubleSpace | maker/logic_storm_class.py:108 | a capitalised name has a double space at exactly the positions where the name has one |
| PyStr.ReplaceCharAt | maker/logic_storm_class.py:314 | replacing one character by another keeps the length, swaps that character at every position and keeps every other character |
| DatabaseTypes.TableCoverage | maker/logic_storm_class.py:38-80 | the column-type lookup succeeds exactly for SQLite, MySQL and PostgreSQL and a Storm type, except `List` on MySQL |
| Fragments.ConcatMapAt | maker/logic_storm_class.py:154-158 | each attribute contributes its own piece at its own position: nothing is merged, dropped or reordered |
| Fragments.ImportsAt | maker/logic_storm_class.py:178-183 | one `from <r lower> import <R>` line per attribute with a reference and `cruzada == 'False'`, at its position, duplicates kept; nothing for the others |
| Fragments.ImportsEmpty | maker/logic_storm_class.py:178-183 | the imports fragment is empty exactly when no attribute is imported |
| Fragments.ParamItemsJoined | maker/logic_storm_class.py:165-169 | the appended items are a space, the lower-cased names joined by `', '`, and a trailing comma |
| Fragments.ParametrosFresh | maker/logic_storm_class.py:165-171 | from an empty field, the result is `''` for no attributes and otherwise `',  '` followed by the names joined by `', '` |
| Fragments.RefQuote | maker/logic_storm_class.py:201-205 | quoting a cross reference changes only the `Clase.ide` target, not the column line |
| Fragments.RefPrimary | maker/logic_storm_class.py:207-208 | the primary-key replacement changes only the `()` after `Int`, not the `Reference(...)` call |
| Fragments.RefCruzadoShape | maker/logic_storm_class.py:195-205 | before the primary-key step, the fragment is the two declarations with the target quoted exactly when `cruzada == 'True'` |
| Fragments.RefFragmentShape | maker/logic_storm_class.py:195-208 | for plain names the fragment is `<a>_id = Int()` (or `Int(primary = True)`) and `<a> = Reference(<a>_id, <R>.ide)`, quoted when crossed |
| Fragments.ReferenciasBeforeFirst | maker/logic_storm_class.py:190-211 | nothing is appended before the first referenced attribute |
| Fragments.ReferenciasUltimo | maker/logic_storm_class.py:190-211 | the carried fragment is that of the latest referenced attribute |
| Fragments.ReferenciasRepeat | maker/logic_storm_class.py:211 | an attribute without a reference re-appends the fragment of the latest referenced attribute before it |
| Fragments.ReferenciasAllReferenced | maker/logic_storm_class.py:192-211 | when every attribute is referenced, each contributes its own fragment exactly once, in order |
| Fragments.SimpleStepNone | maker/logic_storm_class.py:230-253 | an attribute makes `int()` raise exactly when it is a non-primary Int/Unicode with a non-integer default; `texto` changes exactly when the default parses |
| Fragments.SimplesRaised | maker/logic_storm_class.py:213-255 | the conversion error is raised exactly when some simple attribute's default is rejected by `int()` |
| Fragments.SimplesStaysRaised | maker/logic_storm_class.py:232 | once raised, the error ends the loop: later attributes change nothing |
| Fragments.SimplesTexto | maker/logic_storm_class.py:220-253 | `texto` is the one set by the latest attribute that set it |
| Fragments.SimplesTextoInicial | maker/logic_storm_class.py:220 | while no attribute has set it, `texto` keeps its initial value `''` |
| Fragments.SimplesSinReferencias | maker/logic_storm_class.py:221-223 | referenced attributes play no part in the simple lines; the loop behaves as on the unreferenced attributes alone |
| Fragments.SimplesSinDefecto | maker/logic_storm_class.py:221-255 | without defaults, the simple part is exactly one line per unreferenced attribute, in input order, and `texto` stays `''` |
| Fragments.BaseLineReplace | maker/logic_storm_class.py:224-228 | replacing `()` in a plainly named attribute's line touches only the parentheses after the type |
| Fragments.SimpleLineShape | maker/logic_storm_class.py:224-242 | the simple line is `<a> = <T>(primary = True)` for a primary key, `<a> = <T>(allow_none = True)` for not-null without a default, and `<a> = <T>()` otherwise |
| Fragments.SimpleLineDefault | maker/logic_storm_class.py:230-253 | with a default, an Int/Unicode line gets `(allow_none = False, value_factory = N)` or `(value_factory = N)` and sets `texto`; any other type reuses the earlier `texto` |
| Fragments.SqlFields | maker/logic_storm_class.py:265-276 | the columns fail exactly when some lookup misses; otherwise there is one column per attribute, in order |
| Fragments.DropLastSeparator | maker/logic_storm_class.py:276-277 | cutting the last `,\n` off the terminated columns gives the columns joined by `,\n` |
| Template.RenderEach | maker/logic_storm_class.py:109-140 | the substitution is the ordered replacement of the placeholder list by the value list, with `''''''` for an empty SQL table and `Storm`/`object` for the base class |
| Template.ReplaceEachNoDollar | maker/logic_storm_class.py:109-140 | text without `$` passes through every replacement unchanged |
| Template.ReplaceEachOne | maker/logic_storm_class.py:109-140 | a text whose only placeholder is the k-th receives the k-th value in its place and is otherwise unchanged |
| Template.RenderNoPlaceholder | maker/logic_storm_class.py:109-140 | a template without `$` is returned as it is |
| Template.RenderOnePlaceholder | maker/logic_storm_class.py:109-140 | each placeholder alone in a template is replaced by its text, and the rest of the template is kept |
| Template.MezclaExtremos | maker/logic_storm_class.py:109-140 | before any replacement a template cut into segments reads as its placeholders; after all of them, as its values |
| Template.PasoMezcla | maker/logic_storm_class.py:109-140 | one replacement fills every hole of its placeholder, wherever it occurs, and leaves the other placeholders and the text in place |
| Template.ReplaceEachPlantilla | maker/logic_storm_class.py:109-140 | with distinct placeholders and `$`-free text and values, the ordered replacements put each value in every hole of its placeholder |
| Template.RenderPlantilla | maker/logic_storm_class.py:109-140 | the substitution fills every occurrence of every placeholder of a template with its text |
| Template.NormalizarCampo | maker/logic_storm_class.py:308-315 | no result exactly when the name contains a double space; otherwise the same length with every space turned into `_` and every other character kept |
| LogicStorm.GenerarValueError | maker/logic_storm_class.py:98-106 | a call ends with the conversion error exactly when some simple attribute has a default that `int()` rejects |
| LogicStorm.GenerarNonTermination | maker/logic_storm_class.py:98-108 | without a conversion error, the call never returns exactly when the class name contains two consecutive spaces |
| LogicStorm.GenerarCompleto | maker/logic_storm_class.py:98-102 | without a conversion error every generator runs to the end |
| LogicStorm.CamposIniciales | maker/logic_storm_class.py:98-102 | on a fresh instance, the class attributes are the `ide` line, then the simple lines, then the references; parameters are `',  a, b'`; the SQL table is empty; the flag is true exactly when some attribute is a reference |
| LogicStorm.NombreNormalizado | maker/logic_storm_class.py:108 | the template receives the capitalised name with spaces turned into `_`, and it holds no `$` when the name holds none |
| LogicStorm.GenerarPlaceholder | maker/logic_storm_class.py:106-140 | a successful call fills a template holding one placeholder with that placeholder's text and keeps the rest |
| LogicStorm.GenerarPlantilla | maker/logic_storm_class.py:98-140 | a successful call fills every occurrence of every placeholder, both name placeholders with the normalised name |
| LogicStorm.GenerarNombreDosVeces | maker/logic_storm_class.py:108-110 | on a fresh instance `$nombre_clase$` and `$nombre_objeto$` both become the same normalised name |
| LogicStorm.GenerarHerencia | maker/logic_storm_class.py:137-140 | on a fresh instance `$herencia$` becomes `Storm` when some attribute is a reference and `object` otherwise |
| LogicStorm.GenerarSqlTable | maker/logic_storm_class.py:132-135 | on a fresh instance `$sql_table$` becomes `''''''` |
| LogicStorm.GenerarNombre | maker/logic_storm_class.py:108-110 | `$nombre_clase$` becomes the capitalised class name, of the same length, with each space turned into `_` |
| LogicStorm.CamposDosVeces | maker/logic_storm_class.py:29-35 | the fields are never reset: a second run with the same attributes doubles every fragment, keeps the flag, and turns `',  a, b'` into `', ,  a, b a, b'` |
| LogicStorm.LogicStormClass.constructor | maker/logic_storm_class.py:29-35 | all five text fields start empty and the reference flag false |
| LogicStorm.LogicStormClass.GenerarImports | maker/logic_storm_class.py:173-183 | appends exactly the imports fragment of the attributes |
| LogicStorm.LogicStormClass.LineaSimple | maker/logic_storm_class.py:223-253 | the sequential guarded replacements give the line and new `texto` of the step function, or the conversion error |
| LogicStorm.LogicStormClass.GenerarAtributosSimples | maker/logic_storm_class.py:213-255 | appends the `ide` line and the simple lines; succeeds exactly when no default is rejected, having appended only the lines before that attribute otherwise |
| LogicStorm.LogicStormClass.FragmentoReferencia | maker/logic_storm_class.py:194-208 | builds the reference fragment of one referenced attribute |
| LogicStorm.LogicStormClass.GenerarReferencias | maker/logic_storm_class.py:185-211 | appends the references fragment; the flag becomes true exactly when it was or some attribute is a reference |
| LogicStorm.LogicStormClass.GenerarAtributosInit | maker/logic_storm_class.py:149-158 | appends one `self.x = x` line per attribute, lower-cased, in order |
| LogicStorm.LogicStormClass.GenerarParametrosInit | maker/logic_storm_class.py:160-171 | appends the items, then cuts the last character and prefixes `', '`; an empty list leaves the field alone |
| LogicStorm.LogicStormClass.GenerarSQLTable | maker/logic_storm_class.py:257-282 | succeeds exactly when every lookup does, and then stores the columns joined by `,\n` in the envelope; otherwise the field is unchanged |
| LogicStorm.LogicStormClass.Rellenar | maker/logic_storm_class.py:109-140 | the if/else replacement chain over the fields equals the substitution function |
| LogicStorm.LogicStormClass.GenerarClase | maker/logic_storm_class.py:98-140 | the new fields and the outcome are those of `Generar` on the old fields |

## Left out

- File reading and writing are not modelled. `obtenerContenidoPlantilla` and
  `guardarClase` (lines 296-306) read and write files with UTF-8 encoding. The
  template text is instead a parameter of `GenerarClase`, and the finished text is
  returned rather than written. The `return True` becomes `Ok(text)`.
- `generarPaquete` and `convertPath` (lines 284-294, 317-323) are not modelled.
  They are filesystem and path plumbing that depends on the platform. The
  `destino` and `package` parameters go with them.
- The template path set in `__init__` (lines 27-28) is not modelled.
  `maker/pathtools` is not part of this model.
- `generarClase`'s `database` parameter is not modelled. The SQL call at line 103
  is commented out, so the parameter is unused. `GenerarSQLTable` is modelled as a
  method of its own, and `GenerarClase` does not call it, so `sqlTable` keeps its
  value.
- The non-terminating `while` loop of `__normalizarCampo` is not written as a
  loop. It can only be written with `decreases *`. `Template.NormalizarCampo`
  returns no result exactly when the loop would run forever, and `GenerarClase`
  reports `NonTermination`.
- PyStr.ParseInt accepts only an optional sign followed by decimal digits. Python
  2's `int()` also trims surrounding whitespace; that is not modelled.
- PyStr.Lower and PyStr.Capitalize map ASCII letters only. Unicode case mapping of
  `unicode` strings is not modelled.
- The distinction between `str` and `unicode` is not modelled; all text is
  `seq<char>`.
- Attribute dictionaries are records with all seven keys, so the `KeyError` of a
  missing key is not modelled. The `widget` key is never read and is left out.
- The `valor` variable (line 220) is not a separate variable of the model. Its
  initial `None` is never read. Each later value is the parsed default, read at
  once to format `texto` (lines 233, 236, 248 and 251). The model writes that
  value as `ParseInt(a.default).value`. The `%s` of the Unicode branches prints an
  integer as `%d` does.
- A `KeyError` from `__generarSQLTable` is modelled as the method returning
  `false` with `sqlTable` unchanged; the exception propagation itself is not
  modelled.
- The `__main__` block (lines 325-327) is not part of the generator.
