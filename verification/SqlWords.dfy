/**
 The word lists of internal/guardrail/sql_generic.go. Every entry is made of identifier
 bytes only, which is what the word scanners need to be exact, and holds no lower-case
 letter, which is what matching against upper-cased text needs.
 */
module SqlWords {
  import opened AsciiCase
  import opened SqlNormalize
  import opened SqlTokens

  const WRITE_KEYWORDS: seq<Sql> := [
    "DELETE", "UPDATE", "DROP", "ALTER", "CREATE", "MERGE", "UPSERT",
    "GRANT", "REVOKE", "ATTACH", "DETACH", "VACUUM", "REINDEX", "ANALYZE",
    "CALL", "EXEC", "EXECUTE", "PREPARE", "DEALLOCATE", "LOCK", "UNLOCK",
    "COPY", "RENAME", "LOAD", "IMPORT", "RESET", "CLUSTER", "REFRESH",
    "INTO", "OUTFILE", "DUMPFILE"
  ]

  const FUNCTION_LIKE: seq<Sql> := ["INSERT", "REPLACE", "TRUNCATE"]

  const POSTGRES_FUNCTIONS: seq<Sql> := [
    "PG_TERMINATE_BACKEND", "PG_CANCEL_BACKEND", "PG_RELOAD_CONF", "PG_ROTATE_LOGFILE",
    "PG_SWITCH_WAL", "PG_SWITCH_XLOG", "SETVAL", "NEXTVAL", "SET_CONFIG", "PG_PROMOTE",
    "PG_STAT_FILE", "PG_STOP_BACKUP", "PG_START_BACKUP"
  ]

  const FILE_FUNCTIONS: seq<Sql> := [
    "LOAD_FILE", "READFILE", "WRITEFILE", "EDIT", "LOAD_EXTENSION", "FTS3_TOKENIZER"
  ]

  const DENIED_FUNCTIONS: seq<Sql> := POSTGRES_FUNCTIONS + FILE_FUNCTIONS

  const DENIED_PREFIXES: seq<Sql> := [
    "PG_STAT_RESET", "PG_READ_FILE", "PG_READ_BINARY_FILE", "PG_LS_", "LO_", "DBLINK",
    "PG_ADVISORY_", "PG_CREATE_", "PG_DROP_", "PG_LOGICAL_", "PG_REPLICATION_", "PG_WAL"
  ]

  /** A keyword: capitals, digits and underscores. */
  predicate IsKeyword(w: Sql) {
    w != [] && forall i :: 0 <= i < |w| ==> IsIdent(w[i]) && !IsLower(w[i])
  }

  lemma {:induction false} KeywordIsWord(w: Sql)
    requires IsKeyword(w)
    ensures IsWord(w)
  {
  }

  ghost predicate AllWords(ws: seq<Sql>) {
    forall i :: 0 <= i < |ws| ==> IsKeyword(ws[i])
  }

  lemma {:induction false} DefinitionKeywords()
    ensures IsKeyword("DELETE")
    ensures IsKeyword("UPDATE")
    ensures IsKeyword("DROP")
    ensures IsKeyword("ALTER")
    ensures IsKeyword("CREATE")
    ensures IsKeyword("MERGE")
    ensures IsKeyword("UPSERT")
    ensures IsKeyword("GRANT")
    ensures IsKeyword("REVOKE")
    ensures IsKeyword("ATTACH")
    ensures IsKeyword("DETACH")
  {
  }

  lemma {:induction false} AdministrationKeywords()
    ensures IsKeyword("VACUUM")
    ensures IsKeyword("REINDEX")
    ensures IsKeyword("ANALYZE")
    ensures IsKeyword("CALL")
    ensures IsKeyword("EXEC")
    ensures IsKeyword("EXECUTE")
    ensures IsKeyword("PREPARE")
    ensures IsKeyword("DEALLOCATE")
    ensures IsKeyword("LOCK")
    ensures IsKeyword("UNLOCK")
    ensures IsKeyword("COPY")
  {
  }

  lemma {:induction false} TransferKeywords()
    ensures IsKeyword("RENAME")
    ensures IsKeyword("LOAD")
    ensures IsKeyword("IMPORT")
    ensures IsKeyword("RESET")
    ensures IsKeyword("CLUSTER")
    ensures IsKeyword("REFRESH")
    ensures IsKeyword("INTO")
    ensures IsKeyword("OUTFILE")
    ensures IsKeyword("DUMPFILE")
  {
  }

  lemma {:induction false} WriteKeywordsAreWords()
    ensures AllWords(WRITE_KEYWORDS)
  {
    hide IsKeyword;
    DefinitionKeywords();
    AdministrationKeywords();
    TransferKeywords();
  }

  lemma {:induction false} FunctionLikeAreWords()
    ensures AllWords(FUNCTION_LIKE)
  {
  }

  lemma {:induction false} BackendFunctionsAreWords()
    ensures IsKeyword("PG_TERMINATE_BACKEND")
    ensures IsKeyword("PG_CANCEL_BACKEND")
    ensures IsKeyword("PG_RELOAD_CONF")
    ensures IsKeyword("PG_ROTATE_LOGFILE")
  {
  }

  lemma {:induction false} WalFunctionsAreWords()
    ensures IsKeyword("PG_SWITCH_WAL")
    ensures IsKeyword("PG_SWITCH_XLOG")
    ensures IsKeyword("SETVAL")
    ensures IsKeyword("NEXTVAL")
    ensures IsKeyword("SET_CONFIG")
  {
  }

  lemma {:induction false} BackupFunctionsAreWords()
    ensures IsKeyword("PG_PROMOTE")
    ensures IsKeyword("PG_STAT_FILE")
    ensures IsKeyword("PG_STOP_BACKUP")
    ensures IsKeyword("PG_START_BACKUP")
  {
  }

  lemma {:induction false} PostgresFunctionsAreWords()
    ensures AllWords(POSTGRES_FUNCTIONS)
  {
    hide IsKeyword;
    BackendFunctionsAreWords();
    WalFunctionsAreWords();
    BackupFunctionsAreWords();
  }

  lemma {:induction false} FileFunctionKeywords()
    ensures IsKeyword("LOAD_FILE")
    ensures IsKeyword("READFILE")
    ensures IsKeyword("WRITEFILE")
    ensures IsKeyword("EDIT")
    ensures IsKeyword("LOAD_EXTENSION")
    ensures IsKeyword("FTS3_TOKENIZER")
  {
  }

  lemma {:induction false} FileFunctionsAreWords()
    ensures AllWords(FILE_FUNCTIONS)
  {
    hide IsKeyword;
    FileFunctionKeywords();
  }

  lemma {:induction false} AllWordsConcat(a: seq<Sql>, b: seq<Sql>)
    requires AllWords(a) && AllWords(b)
    ensures AllWords(a + b)
  {
  }

  lemma {:induction false} FilePrefixes()
    ensures IsKeyword("PG_STAT_RESET")
    ensures IsKeyword("PG_READ_FILE")
    ensures IsKeyword("PG_READ_BINARY_FILE")
    ensures IsKeyword("PG_LS_")
    ensures IsKeyword("LO_")
    ensures IsKeyword("DBLINK")
  {
  }

  lemma {:induction false} ServerPrefixes()
    ensures IsKeyword("PG_ADVISORY_")
    ensures IsKeyword("PG_CREATE_")
    ensures IsKeyword("PG_DROP_")
    ensures IsKeyword("PG_LOGICAL_")
    ensures IsKeyword("PG_REPLICATION_")
    ensures IsKeyword("PG_WAL")
  {
  }

  lemma {:induction false} DeniedPrefixesAreWords()
    ensures AllWords(DENIED_PREFIXES)
  {
    hide IsKeyword;
    FilePrefixes();
    ServerPrefixes();
  }

  /** All listed words are keywords. */
  lemma {:induction false} ListedAreWords()
    ensures AllWords(WRITE_KEYWORDS) && AllWords(FUNCTION_LIKE)
    ensures AllWords(DENIED_FUNCTIONS) && AllWords(DENIED_PREFIXES)
  {
    hide AllWords;
    WriteKeywordsAreWords();
    FunctionLikeAreWords();
    PostgresFunctionsAreWords();
    FileFunctionsAreWords();
    AllWordsConcat(POSTGRES_FUNCTIONS, FILE_FUNCTIONS);
    DeniedPrefixesAreWords();
  }
}
