/** The logic of lib/auth-context.tsx: the 32-bit password hash, and
    registering, logging in and out against the stored user list. */
module Auth {
  import opened Basics
  import opened Types
  import Lists

  // ---------------------------------------------------------------------
  // 32-bit arithmetic

  const TwoTo31: int := 0x8000_0000
  const TwoTo32: int := 0x1_0000_0000

  /** ECMAScript ToInt32: the integer congruent to `x` modulo 2^32 in [-2^31, 2^31). */
  function Int32(x: int): (r: int)
    ensures -TwoTo31 <= r < TwoTo31
    ensures (r - x) % TwoTo32 == 0
  {
    (x + TwoTo31) % TwoTo32 - TwoTo31
  }

  /** ToInt32 only sees a value modulo 2^32. */
  lemma Int32Congruent(x: int, y: int)
    requires (x - y) % TwoTo32 == 0
    ensures Int32(x) == Int32(y)
  {
    var k := (x - y) / TwoTo32;
    assert x == y + k * TwoTo32;
    assert (x + TwoTo31) == (y + TwoTo31) + k * TwoTo32;
  }

  /** One round of the hash as the source writes it, `(hash << 5) - hash + char`
      truncated to 32 bits, is one round of `hash * 31 + char` modulo 2^32. */
  lemma ShiftRound(h: int, c: int)
    ensures Int32(Int32(h * 32) - h + c) == Int32(h * 31 + c)
  {
    Int32Congruent(Int32(h * 32) - h + c, h * 31 + c);
  }

  // ---------------------------------------------------------------------
  // The hash

  /** The hash value of a string: fold `h * 31 + code` modulo 2^32 from 0. */
  function HashFold(s: string): (h: int)
    ensures -TwoTo31 <= h < TwoTo31
  {
    if |s| == 0 then 0 else Int32(HashFold(s[..|s| - 1]) * 31 + s[|s| - 1] as int)
  }

  predicate IsHexDigit(c: char) {
    '0' <= c <= '9' || 'a' <= c <= 'f'
  }

  /** A lower-case hexadecimal digit. */
  function HexDigit(d: int): (c: char)
    requires 0 <= d < 16
    ensures IsHexDigit(c)
  {
    if d < 10 then ('0' as int + d) as char else ('a' as int + d - 10) as char
  }

  /** The digits of `n` in base 16, without leading zeros. */
  function HexDigits(n: nat): (r: string)
    ensures |r| >= 1
    ensures |r| > 1 ==> r[0] != '0'
    ensures forall i :: 0 <= i < |r| ==> IsHexDigit(r[i])
    decreases n
  {
    if n < 16 then [HexDigit(n)] else HexDigits(n / 16) + [HexDigit(n % 16)]
  }

  /** `Number.prototype.toString(16)` on an integer. */
  function ToHex(n: int): (r: string)
    ensures |r| >= 1
    ensures n < 0 <==> r[0] == '-'
  {
    if n < 0 then "-" + HexDigits(-n) else HexDigits(n)
  }

  /** The value of a hexadecimal digit character. */
  function DigitValue(c: char): int {
    if '0' <= c <= '9' then c as int - '0' as int
    else if 'a' <= c <= 'f' then c as int - 'a' as int + 10
    else 0
  }

  /** Reading base-16 digits. */
  function ParseHexDigits(s: string): int {
    if |s| == 0 then 0 else ParseHexDigits(s[..|s| - 1]) * 16 + DigitValue(s[|s| - 1])
  }

  /** Reading `toString(16)` output. */
  function ParseHex(s: string): int {
    if |s| > 0 && s[0] == '-' then -ParseHexDigits(s[1..]) else ParseHexDigits(s)
  }

  /** The digits of `n` read back as `n`. */
  lemma {:induction false} HexDigitsRoundTrip(n: nat)
    ensures ParseHexDigits(HexDigits(n)) == n
    decreases n
  {
    if n >= 16 {
      HexDigitsRoundTrip(n / 16);
      var r := HexDigits(n);
      assert r[..|r| - 1] == HexDigits(n / 16);
    }
  }

  /** `toString(16)` loses nothing: it reads back as the number. */
  lemma HexRoundTrip(n: int)
    ensures ParseHex(ToHex(n)) == n
  {
    if n < 0 {
      HexDigitsRoundTrip(-n);
      assert ToHex(n)[1..] == HexDigits(-n);
    } else {
      HexDigitsRoundTrip(n);
    }
  }

  /** Different hash values give different hash strings. */
  lemma ToHexInjective(a: int, b: int)
    ensures ToHex(a) == ToHex(b) ==> a == b
  {
    HexRoundTrip(a);
    HexRoundTrip(b);
  }

  /** The stored form of a password. */
  function HashString(s: string): string {
    ToHex(HashFold(s))
  }

  /** `simpleHash`: the loop over the characters, then `toString(16)`. */
  method SimpleHash(str: string) returns (r: string)
    ensures r == HashString(str)
  {
    var hash := 0;
    for i := 0 to |str|
      invariant hash == HashFold(str[..i])
    {
      var code := str[i] as int;
      ShiftRound(hash, code);
      hash := Int32(hash * 32) - hash + code;
      hash := Int32(hash);
      assert str[..i + 1][..i] == str[..i];
    }
    assert str[..|str|] == str;
    r := ToHex(hash);
  }

  /** The empty password hashes to "0"; a one-character one to its code in hex. */
  lemma HashExamples()
    ensures HashString("") == "0"
    ensures HashString("a") == "61"
  {
    assert "a"[..0] == "";
    assert HashFold("a") == Int32(97);
    assert Int32(97) == 97;
    assert HexDigits(97) == HexDigits(6) + [HexDigit(1)];
  }

  // ---------------------------------------------------------------------
  // Users

  /** A record of the stored user list: the password is the hash string. */
  datatype StoredUser = StoredUser(id: string, username: string, email: string, password: string, createdAt: Millis)

  /** `const { password: _, ...userWithoutPassword } = u`. */
  function WithoutPassword(u: StoredUser): User {
    User(u.id, u.username, u.email, u.createdAt)
  }

  function HasCredentials(username: string, hashed: string): StoredUser -> bool {
    (u: StoredUser) => u.username == username && u.password == hashed
  }

  /** Some stored user has this name. */
  predicate NameTaken(users: seq<StoredUser>, username: string) {
    exists i :: 0 <= i < |users| && users[i].username == username
  }

  /** Some stored user has this name and the hash of this password. */
  predicate CanLogin(users: seq<StoredUser>, username: string, password: string) {
    exists i :: 0 <= i < |users| && users[i].username == username && users[i].password == HashString(password)
  }

  /** No two stored users share a name. */
  predicate UsernamesUnique(users: seq<StoredUser>) {
    forall i, j :: 0 <= i < j < |users| ==> users[i].username != users[j].username
  }

  /** The session after a login attempt: the first user with the name and
      hashed password. */
  function LoginMatch(users: seq<StoredUser>, username: string, password: string): (r: Option<StoredUser>)
    ensures r.None? <==> !CanLogin(users, username, password)
    ensures r.Some? ==> r.value in users && r.value.username == username && r.value.password == HashString(password)
  {
    Lists.Find(users, HasCredentials(username, HashString(password)))
  }

  /** The record `register` appends. */
  function NewUser(username: string, email: string, password: string, freshId: string, now: Millis): StoredUser {
    StoredUser(freshId, username, email, HashString(password), now)
  }

  /** Registering keeps user names unique. */
  lemma RegisterKeepsNamesUnique(users: seq<StoredUser>, username: string, email: string, password: string,
                                 freshId: string, now: Millis)
    requires UsernamesUnique(users) && !NameTaken(users, username)
    ensures UsernamesUnique(users + [NewUser(username, email, password, freshId, now)])
  {
  }

  /** After registering, logging in with the same name and password finds
      the new account, and no other. */
  lemma RegisteredUserCanLogin(users: seq<StoredUser>, username: string, email: string, password: string,
                               freshId: string, now: Millis)
    requires !NameTaken(users, username)
    ensures LoginMatch(users + [NewUser(username, email, password, freshId, now)], username, password)
         == Some(NewUser(username, email, password, freshId, now))
  {
    var u := NewUser(username, email, password, freshId, now);
    var all := users + [u];
    var i := Lists.IndexWhere(all, HasCredentials(username, HashString(password)));
    assert HasCredentials(username, HashString(password))(all[|users|]);
    assert i == |users|;
  }

  /** A different password whose hash string differs is refused. */
  lemma WrongPasswordRefused(users: seq<StoredUser>, username: string, password: string)
    requires UsernamesUnique(users)
    requires exists i :: 0 <= i < |users| && users[i].username == username && users[i].password != HashString(password)
    ensures LoginMatch(users, username, password).None?
  {
  }

  /** The authentication context: the stored users and the session user. */
  class AuthProvider {
    var users: seq<StoredUser>
    var user: Option<User>

    /** A provider over the stored user list, nobody signed in. */
    constructor (stored: seq<StoredUser>)
      ensures users == stored && user.None?
    {
      users := stored;
      user := None;
    }

    /** `login`: succeeds iff a stored user has the name and the hash of the
      password; the session then holds that user without its password. */
    method Login(username: string, password: string) returns (ok: bool)
      modifies this`user
      ensures ok <==> CanLogin(users, username, password)
      ensures ok ==> user == Some(WithoutPassword(LoginMatch(users, username, password).value))
      ensures !ok ==> user == old(user)
    {
      var hashedPassword := SimpleHash(password);
      var foundUser := Lists.Find(users, HasCredentials(username, hashedPassword));
      if foundUser.Some? {
        user := Some(WithoutPassword(foundUser.value));
        return true;
      }
      return false;
    }

    /** `register`: a taken name changes nothing; otherwise one user is
      appended with the hashed password and signed in. */
    method Register(username: string, email: string, password: string, freshId: string, now: Millis) returns (ok: bool)
      modifies this
      ensures ok <==> !NameTaken(old(users), username)
      ensures !ok ==> users == old(users) && user == old(user)
      ensures ok ==> users == old(users) + [NewUser(username, email, password, freshId, now)]
      ensures ok ==> user == Some(User(freshId, username, email, now))
    {
      if exists i :: 0 <= i < |users| && users[i].username == username {
        return false;
      }
      var hashed := SimpleHash(password);
      var newUser := StoredUser(freshId, username, email, hashed, now);
      users := users + [newUser];
      user := Some(WithoutPassword(newUser));
      return true;
    }

    /** `logout`. */
    method Logout()
      modifies this`user
      ensures user.None?
    {
      user := None;
    }
  }

  const OutsideProvider: string := "useAuth must be used within an AuthProvider"

  /** `useAuth`: the context, or the error thrown outside a provider. */
  function UseAuth<C>(context: Option<C>): (r: Result<C, string>)
    ensures r.Failure? <==> context.None?
    ensures r.Failure? ==> r.error == OutsideProvider
    ensures r.Success? ==> r.value == context.value
  {
    match context
    case None => Failure(OutsideProvider)
    case Some(c) => Success(c)
  }
}
