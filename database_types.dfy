/** The static `database_types` table of LogicStormClass: for each supported
    database, the column type that stands for each Storm property type. */
module DatabaseTypes {
  import opened PyStr

  /** The Storm property types the generator knows about. */
  const StormTypes: seq<string> :=
    ["Int", "Unicode", "Bool", "Float", "Decimal", "DateTime",
     "RawStr", "Pickle", "Date", "Time", "TimeDelta", "List"]

  const Table: map<string, map<string, string>> := map[
    "SQLite" := map[
      "Int" := "INTEGER",
      "Unicode" := "VARCHAR",
      "Bool" := "INT",
      "Float" := "FLOAT",
      "Decimal" := "VARCHAR",
      "DateTime" := "VARCHAR",
      "RawStr" := "BLOB",
      "Pickle" := "BLOB",
      "Date" := "VARCHAR",
      "Time" := "VARCHAR",
      "TimeDelta" := "VARCHAR",
      "List" := "VARCHAR"
    ],
    "MySQL" := map[
      "Int" := "INT",
      "Unicode" := "VARCHAR",
      "Bool" := "TINYINT(1)",
      "Float" := "FLOAT",
      "Decimal" := "DECIMAL",
      "DateTime" := "DATETIME",
      "RawStr" := "BLOB,BYNARY",
      "Pickle" := "BLOB,BYNARY",
      "Date" := "DATE",
      "Time" := "TIME",
      "TimeDelta" := "TEXT"
    ],
    "PostgreSQL" := map[
      "Int" := "INT",
      "Unicode" := "VARCHAR",
      "Bool" := "BOOL",
      "Float" := "FLOAT",
      "Decimal" := "DECIMAL",
      "DateTime" := "TIMESTAMP",
      "RawStr" := "BYTEA",
      "Pickle" := "BYTEA",
      "Date" := "DATE",
      "Time" := "TIME",
      "TimeDelta" := "INTERVAL",
      "List" := "ARRAY[]"
    ]
  ]

  /** `database_types[db][storm_type]`; None stands for the KeyError of a
      missing database or a missing type. */
  function ColumnType(db: string, stormType: string): Option<string>
  {
    if db in Table && stormType in Table[db] then Some(Table[db][stormType]) else None
  }

  /** The lookup succeeds exactly for the three known databases and the
      Storm types, except that MySQL has no entry for List. */
  lemma TableCoverage(db: string, t: string)
    ensures ColumnType(db, t).Some? <==>
              db in {"SQLite", "MySQL", "PostgreSQL"} && t in StormTypes && !(db == "MySQL" && t == "List")
  {
  }
}
