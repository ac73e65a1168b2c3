/** PasswordManager.kt: the app password, kept in a preferences file as a
    "password set" flag and the hex string of the password's SHA-256
    digest. SHA-256 of the password's bytes is not modelled: it is a
    parameter `digest` from the password to a sequence of (signed, as in
    Kotlin) bytes, and the properties that need it to be collision-free
    say so. */
module Passwords {
  import opened Records

  /** A Kotlin `Byte`. */
  newtype int8 = x: int | -128 <= x < 128

  /** What `password.toByteArray()` followed by `MessageDigest.digest` gives. */
  type Digest = string -> seq<int8>

  ghost predicate Injective(digest: Digest) {
    forall a: string, b: string :: digest(a) == digest(b) ==> a == b
  }

  // ---- hashPassword ----

  const HexDigits: string := "0123456789abcdef"

  predicate IsLowerHex(c: char) {
    c in HexDigits
  }

  /** The value `%02x` formats: a negative `Byte` is taken modulo 256, as
      java.util.Formatter does for `%x`. */
  function Unsigned(b: int8): (u: nat)
    ensures u < 256
    ensures u % 256 == b as int % 256
  {
    if b < 0 then (b as int + 256) as nat else b as nat
  }

  /** `"%02x".format(b)` */
  function HexByte(b: int8): (s: string)
    ensures |s| == 2
    ensures IsLowerHex(s[0]) && IsLowerHex(s[1])
  {
    var u := Unsigned(b);
    [HexDigits[u / 16], HexDigits[u % 16]]
  }

  /** `joinToString("") { "%02x".format(it) }` */
  function Hex(bytes: seq<int8>): (s: string)
    ensures |s| == 2 * |bytes|
  {
    if bytes == [] then "" else HexByte(bytes[0]) + Hex(bytes[1..])
  }

  /** Every character of the hash is a lowercase hex digit. */
  lemma {:induction false} HexIsLowercase(bytes: seq<int8>)
    ensures forall i :: 0 <= i < |Hex(bytes)| ==> IsLowerHex(Hex(bytes)[i])
  {
    if bytes != [] {
      HexIsLowercase(bytes[1..]);
      var h, t := HexByte(bytes[0]), Hex(bytes[1..]);
      assert forall i :: 0 <= i < |t| ==> (h + t)[i + 2] == t[i];
    }
  }

  /** `hashPassword(password)` */
  function Hash(digest: Digest, password: string): string {
    Hex(digest(password))
  }

  /** Two bytes with the same two hex characters are the same byte. */
  lemma HexByteInjective(a: int8, b: int8)
    ensures HexByte(a) == HexByte(b) ==> a == b
  {
    if HexByte(a) == HexByte(b) {
      var u, v := Unsigned(a), Unsigned(b);
      assert HexDigits[u / 16] == HexDigits[v / 16] && HexDigits[u % 16] == HexDigits[v % 16];
      DistinctHexDigits(u / 16, v / 16);
      DistinctHexDigits(u % 16, v % 16);
      assert u == 16 * (u / 16) + u % 16;
    }
  }

  lemma DistinctHexDigits(i: nat, j: nat)
    requires i < 16 && j < 16
    ensures HexDigits[i] == HexDigits[j] ==> i == j
  {
  }

  /** The hex text determines the digest: different digests give different
      strings. */
  lemma {:induction false} HexInjective(a: seq<int8>, b: seq<int8>)
    requires Hex(a) == Hex(b)
    ensures a == b
    decreases |a|
  {
    if a != [] {
      assert |b| == |a|;
      SplitEqual(HexByte(a[0]), Hex(a[1..]), HexByte(b[0]), Hex(b[1..]));
      HexByteInjective(a[0], b[0]);
      HexInjective(a[1..], b[1..]);
      assert a == [a[0]] + a[1..] && b == [b[0]] + b[1..];
    }
  }

  /** Equal texts cut at the same place have equal halves. */
  lemma SplitEqual(x: string, u: string, y: string, v: string)
    requires |x| == |y| && x + u == y + v
    ensures x == y && u == v
  {
    assert x == (x + u)[..|x|] && y == (y + v)[..|y|];
    assert u == (x + u)[|x|..] && v == (y + v)[|y|..];
  }

  /** With a collision-free digest, equal hashes mean equal passwords. */
  lemma HashInjective(digest: Digest, p: string, q: string)
    requires Injective(digest)
    ensures Hash(digest, p) == Hash(digest, q) <==> p == q
  {
    if Hash(digest, p) == Hash(digest, q) {
      HexInjective(digest(p), digest(q));
    }
  }

  // ---- The preferences file ----

  /** The two entries: `password_set` (a missing entry reads as false) and
      `password_hash` (a missing entry reads as ""). */
  datatype Prefs = Prefs(passwordSet: Option<bool>, passwordHash: Option<string>)

  const EmptyPrefs := Prefs(None, None)

  /** `isPasswordSet()` */
  function IsSet(prefs: Prefs): (r: bool)
    ensures r <==> prefs.passwordSet == Some(true)
  {
    match prefs.passwordSet
    case Some(b) => b
    case None => false
  }

  /** `getString(KEY_PASSWORD_HASH, "") ?: ""` */
  function StoredHash(prefs: Prefs): string {
    match prefs.passwordHash
    case Some(h) => h
    case None => ""
  }

  /** The entries after `setPassword(password)`: from any state, the flag is
      on and the hash is that password's. */
  function Set(digest: Digest, password: string): (r: Prefs)
    ensures IsSet(r)
    ensures r.passwordHash == Some(Hash(digest, password))
  {
    Prefs(Some(true), Some(Hash(digest, password)))
  }

  /** `verifyPassword(password)` */
  function Verify(prefs: Prefs, digest: Digest, password: string): (r: bool)
    ensures !IsSet(prefs) ==> !r
  {
    IsSet(prefs) && StoredHash(prefs) == Hash(digest, password)
  }

  /** `changePassword(currentPassword, newPassword)`: the new entries and
      the result. */
  function Change(prefs: Prefs, digest: Digest, currentPassword: string, newPassword: string)
    : (r: (Prefs, bool))
    ensures r.1 <==> Verify(prefs, digest, currentPassword)
    ensures !r.1 ==> r.0 == prefs
  {
    if !Verify(prefs, digest, currentPassword) then (prefs, false)
    else (Set(digest, newPassword), true)
  }

  /** `clearPassword()` removes both entries. */
  function Clear(prefs: Prefs): (r: Prefs)
    ensures !IsSet(r) && r.passwordHash == None
  {
    EmptyPrefs
  }

  // ---- Properties ----

  /** Once a password is set, exactly that password verifies. */
  lemma VerifyAfterSet(digest: Digest, p: string, q: string)
    requires Injective(digest)
    ensures IsSet(Set(digest, p))
    ensures Verify(Set(digest, p), digest, q) <==> q == p
  {
    HashInjective(digest, p, q);
  }

  /** A successful change makes the new password the only one that
      verifies, so the old one stops working unless it was the new one. */
  lemma ChangeReplacesPassword(prefs: Prefs, digest: Digest, current: string, next: string, q: string)
    requires Injective(digest)
    requires Verify(prefs, digest, current)
    ensures Change(prefs, digest, current, next).1
    ensures Verify(Change(prefs, digest, current, next).0, digest, q) <==> q == next
  {
    HashInjective(digest, next, q);
  }

  /** After `clearPassword` no password verifies. */
  lemma ClearLocks(prefs: Prefs, digest: Digest, q: string)
    ensures !IsSet(Clear(prefs)) && !Verify(Clear(prefs), digest, q)
  {
  }

  /** Verification compares hex strings, and the hex text loses nothing:
      after `p` is set, `q` verifies exactly when its digest is `p`'s, for
      any digest function. */
  lemma VerifyIffSameDigest(prefs: Prefs, digest: Digest, p: string, q: string)
    requires prefs == Set(digest, p)
    ensures Verify(prefs, digest, q) <==> digest(q) == digest(p)
  {
    if Hash(digest, q) == Hash(digest, p) {
      HexInjective(digest(q), digest(p));
    }
  }

  /** The password store of the app, over its preferences file. */
  class PasswordManager {
    const digest: Digest
    var passwordSet: Option<bool>
    var passwordHash: Option<string>

    function State(): Prefs
      reads this
    {
      Prefs(passwordSet, passwordHash)
    }

    constructor (digest: Digest, prefs: Prefs)
      ensures this.digest == digest && State() == prefs
    {
      this.digest := digest;
      passwordSet := prefs.passwordSet;
      passwordHash := prefs.passwordHash;
    }

    /** `isPasswordSet()` */
    method IsPasswordSet() returns (r: bool)
      ensures r <==> passwordSet == Some(true)
    {
      r := passwordSet == Some(true);
    }

    /** `setPassword(password)`; the exception path is not modelled (the
        digest is total), so it always reports success. */
    method SetPassword(password: string) returns (ok: bool)
      modifies this
      ensures ok && State() == Set(digest, password)
    {
      passwordSet := Some(true);
      passwordHash := Some(Hex(digest(password)));
      ok := true;
    }

    /** `verifyPassword(password)` */
    method VerifyPassword(password: string) returns (ok: bool)
      ensures ok == Verify(State(), digest, password)
    {
      var isSet := IsPasswordSet();
      if !isSet {
        return false;
      }
      var storedHash := if passwordHash.Some? then passwordHash.value else "";
      var inputHash := Hex(digest(password));
      ok := storedHash == inputHash;
    }

    /** `changePassword(currentPassword, newPassword)` */
    method ChangePassword(currentPassword: string, newPassword: string) returns (ok: bool)
      modifies this
      ensures (State(), ok) == Change(old(State()), digest, currentPassword, newPassword)
    {
      var verified := VerifyPassword(currentPassword);
      if !verified {
        return false;
      }
      ok := SetPassword(newPassword);
    }

    /** `clearPassword()` */
    method ClearPassword()
      modifies this
      ensures State() == Clear(old(State()))
    {
      passwordSet := None;
      passwordHash := None;
    }
  }
}
