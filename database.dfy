/** The database crate's error wrapper (database/src/lib.rs), and the text
    sqlx's `QueryBuilder` writes for a bound argument. SQL is otherwise not
    modelled: each query's outcome is a parameter of the operation that runs it. */
module Database {
  import opened Common

  /** What went wrong in sqlx: an error reported by Postgres, which may be a
      unique or primary-key violation, or any other failure (I/O, pool, decoding). */
  datatype ErrorKind = Reported(uniqueViolation: bool) | Other

  datatype Error = Error(kind: ErrorKind)

  /** `Error::is_unique_violation`: only an error Postgres reported can be one. */
  predicate IsUniqueViolation(e: Error) {
    e.kind.Reported? && e.kind.uniqueViolation
  }

  predicate IsAsciiDigit(c: char) { '0' <= c <= '9' }

  predicate IsAsciiLetter(c: char) { 'A' <= c <= 'Z' || 'a' <= c <= 'z' }

  /** What `push_bind` writes on Postgres for the n-th bound argument: `$` and
      its number. */
  function Placeholder(n: nat): (s: string)
    ensures |s| >= 2 && s[0] == '$' && IsAsciiDigit(s[|s| - 1])
    ensures forall i :: 0 <= i < |s| ==> !IsAsciiLetter(s[i])
  {
    "$" + NatDigits(n)
  }

  /** No number in the statement runs straight into a word: a parameter `$n` is
      always followed by a separator or by the end of the text. PostgreSQL's
      lexer rejects a parameter directly followed by letters in its recent
      releases. */
  predicate ParametersDelimited(s: string) {
    forall i :: 0 <= i < |s| - 1 && IsAsciiDigit(s[i]) ==> !IsAsciiLetter(s[i + 1])
  }

  /** Two delimited texts stay delimited when joined, unless the first ends in a
      digit and the second starts with a letter. */
  lemma DelimitedConcat(a: string, b: string)
    requires ParametersDelimited(a) && ParametersDelimited(b)
    requires |a| > 0 && |b| > 0 && IsAsciiDigit(a[|a| - 1]) ==> !IsAsciiLetter(b[0])
    ensures ParametersDelimited(a + b)
  {
    var s := a + b;
    forall i | 0 <= i < |s| - 1 && IsAsciiDigit(s[i])
      ensures !IsAsciiLetter(s[i + 1])
    {
      if i < |a| - 1 {
        assert s[i] == a[i] && s[i + 1] == a[i + 1];
      } else if i == |a| - 1 {
        assert s[i] == a[i] && s[i + 1] == b[0];
      } else {
        assert s[i] == b[i - |a|] && s[i + 1] == b[i - |a| + 1];
      }
    }
  }

  /** A text without digits, or without letters, is delimited. */
  lemma DigitFreeDelimited(s: string)
    requires (forall i :: 0 <= i < |s| ==> !IsAsciiDigit(s[i])) || (forall i :: 0 <= i < |s| ==> !IsAsciiLetter(s[i]))
    ensures ParametersDelimited(s)
  {
  }
}
