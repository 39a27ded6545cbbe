/** Shared vocabulary: optional values, resolver results and the error kinds
    a GraphQL request can end with. */
module Base {

  datatype Option<+T> = None | Some(value: T) {
    function GetOr(default: T): T {
      match this
      case Some(v) => v
      case None => default
    }
  }

  /** Why a resolver or a store write failed.  Each resolver raises an
      exception; the kind of exception is what is kept here. */
  datatype Error =
    | Unauthenticated     // "Not authenticated!"
    | Forbidden           // "Cannot update other users!", "Only staff can create products"
    | NotFound            // Model.DoesNotExist from objects.get(...)
    | DuplicateUsername   // IntegrityError: unique username
    | DuplicateReview     // ValidationError from validate_unique: the (product, user) pair is taken
    | DuplicateProfile    // IntegrityError: one profile per user
    | MissingReference    // a foreign key to a row that does not exist: IntegrityError from
                          // the database, or ValidationError from full_clean for a review
    | DataError           // value too long for varchar(n), numeric or integer overflow
    | InvalidChoice       // ValidationError: rating outside the declared choices
    | BlankField          // ValidationError: empty value for a field without blank=True
    | NulCharacter        // the database driver refuses a string holding a NUL character

  datatype Result<+T> = Ok(value: T) | Err(error: Error)

  /** GraphQL `Int` and a PostgreSQL `integer` column: signed 32 bits. */
  const MinInt32: int := -0x8000_0000
  const MaxInt32: int := 0x7FFF_FFFF

  predicate IsInt32(x: int) {
    MinInt32 <= x <= MaxInt32
  }

  type Int32 = x: int | IsInt32(x)

  /** Whether `s` holds a NUL character, which the PostgreSQL driver refuses
      to send in any text column. */
  predicate HasNul(s: string) {
    '\0' in s
  }

  /** Whether a `varchar(n)` column takes `s`: a longer value is refused
      unless every character past the n-th is a space. */
  predicate VarcharTakes(s: string, n: nat) {
    forall i :: n <= i < |s| ==> s[i] == ' '
  }

  /** What a `varchar(n)` column holds once it has taken `s`: the excess
      spaces are cut off. */
  function Varchar(s: string, n: nat): (t: string)
    ensures |t| <= n && t <= s
    ensures |s| <= n ==> t == s
    ensures |s| > n ==> |t| == n
    ensures !HasNul(s) ==> !HasNul(t)
  {
    if |s| <= n then s else s[..n]
  }

  function Spaces(k: nat): (r: string)
    ensures |r| == k && forall i :: 0 <= i < k ==> r[i] == ' '
  {
    seq(k, _ => ' ')
  }

  /** The cut loses only spaces: a value the column takes is what it holds
      followed by spaces, and a value it holds unchanged is one it takes. */
  lemma {:induction false} VarcharCutsOnlySpaces(s: string, n: nat)
    ensures VarcharTakes(s, n) <==> s == Varchar(s, n) + Spaces(|s| - |Varchar(s, n)|)
  {
    var t := Varchar(s, n);
    if VarcharTakes(s, n) {
      assert forall i :: 0 <= i < |s| ==> s[i] == (t + Spaces(|s| - |t|))[i] by {
        forall i | 0 <= i < |s| ensures s[i] == (t + Spaces(|s| - |t|))[i] {
          if i >= |t| {
            assert |t| == n;
          }
        }
      }
    } else {
      var i :| n <= i < |s| && s[i] != ' ';
      assert |t| == n;
      assert (t + Spaces(|s| - |t|))[i] == ' ';
    }
  }
}
