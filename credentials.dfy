/**
 * The input normalisation register and login share, and bcrypt.
 *
 * bcryptjs is foreign code: `hash(password, cost, salt)` and
 * `compare(password, hash)` are the functions of a `Bcrypt` value (the
 * random salt is a parameter), and `Sound` states the one contract the
 * lemmas rely on.
 */
module Credentials {
  import opened Wrappers
  import opened Text

  /** The cost factor passed to `bcrypt.hash`. */
  const BcryptCost: int := 12

  datatype Bcrypt = Bcrypt(hash: (string, int, nat) -> string, compare: (string, string) -> bool)

  /** A password matches every hash made from it. */
  ghost predicate Sound(bc: Bcrypt) {
    forall pw, cost, salt :: bc.compare(pw, bc.hash(pw, cost, salt))
  }

  /** `String(email ?? '').trim().toLowerCase()`. */
  function NormalizeEmail(raw: Option<string>): (e: string)
    ensures forall i :: 0 <= i < |e| ==> !IsUpper(e[i])
    ensures e == [] || (!IsSpace(e[0]) && !IsSpace(e[|e| - 1]))
  {
    ToLower(Trim(raw.GetOr("")))
  }

  /** `String(full_name ?? '').trim()`. */
  function NormalizeName(raw: Option<string>): (n: string)
    ensures n == [] || (!IsSpace(n[0]) && !IsSpace(n[|n| - 1]))
  {
    Trim(raw.GetOr(""))
  }

  /** `String(password ?? '')`: the password is kept as typed, whitespace included. */
  function NormalizePassword(raw: Option<string>): string {
    raw.GetOr("")
  }

  /** Two emails that differ only in letter case normalise alike. */
  lemma SameEmailUpToCase(a: string, b: string)
    requires ToLower(a) == ToLower(b)
    ensures NormalizeEmail(Some(a)) == NormalizeEmail(Some(b))
  {
    ToLowerTrimCommute(a);
    ToLowerTrimCommute(b);
  }

  /** A normalised email is its own normal form. */
  lemma NormalizeEmailIdempotent(raw: Option<string>)
    ensures NormalizeEmail(Some(NormalizeEmail(raw))) == NormalizeEmail(raw)
  {
    var t := Trim(raw.GetOr(""));
    ToLowerTrimCommute(t);
    TrimIdempotent(t);
    ToLowerIdempotent(t);
  }
}
