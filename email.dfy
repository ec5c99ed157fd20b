/** The e-mail format check of the general utilities (`is_valid_email`). */
module Utils {
  import opened Strings

  /** The piece of `s` after its last `'@'` (`s.split("@")[-1]`). */
  function DomainPart(email: string): string
  {
    var parts := Split(email, '@');
    parts[|parts| - 1]
  }

  /** Where `k` is the position of the last `'@'`, the domain part is everything
      after it. */
  lemma DomainAfterLastAt(email: string)
    ensures forall k :: 0 <= k < |email| && email[k] == '@' && '@' !in email[k + 1..] ==>
      DomainPart(email) == email[k + 1..]
  {
    forall k | 0 <= k < |email| && email[k] == '@' && '@' !in email[k + 1..]
      ensures DomainPart(email) == email[k + 1..]
    {
      LastPieceIsSuffix(email, '@');
      var d := DomainPart(email);
      var j := |email| - |d| - 1;
      assert email[j] == '@' && '@' !in email[j + 1..];
    }
  }

  /** `is_valid_email`: an address is accepted when it contains `'@'` and the piece
      after the last `'@'` contains `'.'`. Equivalently, a `'.'` follows the last
      `'@'`; nothing before that `'@'` is looked at. */
  predicate IsValidEmail(email: string): (valid: bool)
    ensures '@' !in email ==> !valid
    ensures forall k :: 0 <= k < |email| && email[k] == '@' && '@' !in email[k + 1..] ==>
      (valid <==> '.' in email[k + 1..])
  {
    DomainAfterLastAt(email);
    '@' in email && '.' in DomainPart(email)
  }

  /** Without an `'@'` an address is never valid. */
  lemma NoAtRejected(email: string)
    requires '@' !in email
    ensures !IsValidEmail(email)
  {
  }

  /** The local part is not checked: `"@x.y"` is accepted. */
  lemma EmptyLocalPartAccepted()
    ensures IsValidEmail("@x.y")
  {
    assert "@x.y"[1..] == "x.y";
    assert "x.y"[1] == '.';
  }

  /** A `'.'` before the last `'@'` does not count: `"a.b@c"` is rejected. */
  lemma DotOnlyBeforeAtRejected()
    ensures !IsValidEmail("a.b@c")
  {
    assert "a.b@c"[4..] == "c";
  }

  /** A trailing dot is accepted: `"a@b."` is valid. */
  lemma TrailingDotAccepted()
    ensures IsValidEmail("a@b.")
  {
    assert "a@b."[2..] == "b.";
    assert "b."[1] == '.';
  }

  /** Only the last `'@'` splits: `"a@b.c@d"` is rejected although `"b.c"` has a dot. */
  lemma LastAtDecides()
    ensures !IsValidEmail("a@b.c@d")
  {
    assert "a@b.c@d"[5] == '@';
    assert "a@b.c@d"[6..] == "d";
  }
}
