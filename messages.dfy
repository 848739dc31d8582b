/**
 * The fixed texts the helpers build their error messages from, split around
 * their one `{}` field, and the fact that none of them holds a brace.
 *
 * Each text is written as a concatenation of short words: the verifier
 * checks a property such as "no brace" word by word and combines the results
 * with `NoBracesConcat`, which is far cheaper than unfolding one long literal.
 */
module Messages {
  import opened StrFormat

  const RecognizeLoader := "Couldn't " + "recognize " + "given " + "loader "
  const RecognizeDatabase := "Couldn't " + "recognize " + "database " + "name: "
  const PostgresUnsupported := "PostgreSQL " + "database " + "temporarily " + "not " + "supported."
  const RequestedNone := "Requested " + "object " + "is " + "None."
  const RequestedEmpty := "Requested " + "object " + "is " + "empty " + "mapping: "
  const EnumsMissing := "Given " + "enums " + "don't " + "contain " + "given " + "value "

  lemma LoaderBraceFree()
    ensures NoBraces(RecognizeLoader)
  {
    assert NoBraces("Couldn't ");
    assert NoBraces("recognize ");
    assert NoBraces("given ");
    assert NoBraces("loader ");
    NoBracesConcat("Couldn't ", "recognize ");
    NoBracesConcat("Couldn't " + "recognize ", "given ");
    NoBracesConcat("Couldn't " + "recognize " + "given ", "loader ");
  }

  lemma DatabaseBraceFree()
    ensures NoBraces(RecognizeDatabase)
  {
    assert NoBraces("Couldn't ");
    assert NoBraces("recognize ");
    assert NoBraces("database ");
    assert NoBraces("name: ");
    NoBracesConcat("Couldn't ", "recognize ");
    NoBracesConcat("Couldn't " + "recognize ", "database ");
    NoBracesConcat("Couldn't " + "recognize " + "database ", "name: ");
  }

  lemma PostgresBraceFree()
    ensures NoBraces(PostgresUnsupported)
  {
    assert NoBraces("PostgreSQL ");
    assert NoBraces("database ");
    assert NoBraces("temporarily ");
    assert NoBraces("not ");
    assert NoBraces("supported.");
    NoBracesConcat("PostgreSQL ", "database ");
    NoBracesConcat("PostgreSQL " + "database ", "temporarily ");
    NoBracesConcat("PostgreSQL " + "database " + "temporarily ", "not ");
    NoBracesConcat("PostgreSQL " + "database " + "temporarily " + "not ", "supported.");
  }

  lemma NoneBraceFree()
    ensures NoBraces(RequestedNone)
  {
    assert NoBraces("Requested ");
    assert NoBraces("object ");
    assert NoBraces("is ");
    assert NoBraces("None.");
    NoBracesConcat("Requested ", "object ");
    NoBracesConcat("Requested " + "object ", "is ");
    NoBracesConcat("Requested " + "object " + "is ", "None.");
  }

  lemma EmptyBraceFree()
    ensures NoBraces(RequestedEmpty)
  {
    assert NoBraces("Requested ");
    assert NoBraces("object ");
    assert NoBraces("is ");
    assert NoBraces("empty ");
    assert NoBraces("mapping: ");
    NoBracesConcat("Requested ", "object ");
    NoBracesConcat("Requested " + "object ", "is ");
    NoBracesConcat("Requested " + "object " + "is ", "empty ");
    NoBracesConcat("Requested " + "object " + "is " + "empty ", "mapping: ");
  }

  lemma EnumsBraceFree()
    ensures NoBraces(EnumsMissing)
  {
    assert NoBraces("Given ");
    assert NoBraces("enums ");
    assert NoBraces("don't ");
    assert NoBraces("contain ");
    assert NoBraces("given ");
    assert NoBraces("value ");
    NoBracesConcat("Given ", "enums ");
    NoBracesConcat("Given " + "enums ", "don't ");
    NoBracesConcat("Given " + "enums " + "don't ", "contain ");
    NoBracesConcat("Given " + "enums " + "don't " + "contain ", "given ");
    NoBracesConcat("Given " + "enums " + "don't " + "contain " + "given ", "value ");
  }

  lemma BraceFree()
    ensures NoBraces(RecognizeLoader) && NoBraces(RecognizeDatabase) && NoBraces(PostgresUnsupported)
    ensures NoBraces(RequestedNone) && NoBraces(RequestedEmpty) && NoBraces(EnumsMissing)
    ensures NoBraces(".") && NoBraces("")
  {
    LoaderBraceFree();
    DatabaseBraceFree();
    PostgresBraceFree();
    NoneBraceFree();
    EmptyBraceFree();
    EnumsBraceFree();
  }
}
