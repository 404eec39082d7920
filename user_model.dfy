/** models/User.js: the user record, the validation the schema declares for a new
    user (required name, email matching the pattern, role from the enumeration with
    its default, password of at least six characters), the exclusion of the
    password from ordinary reads, and the reset-token fields written by
    `getResetPasswordToken`. Hashing, random bytes and the clock are parameters. */
module UserModel {
  import opened Wrappers
  import EmailPattern

  type Id = string

  const Roles: seq<string> := ["user", "publisher"]
  const DefaultRole: string := "user"
  const MinPasswordLength: nat := 6
  /** `10 * 60 * 1000`: a reset token is valid for ten minutes, in milliseconds. */
  const ResetWindow: int := 10 * 60 * 1000

  const NameRequired: string := "Please provide a name."
  const EmailRequired: string := "Please provide an email."
  const EmailInvalid: string := "Please add a valid email"
  const PasswordRequired: string := "Please provide a password."
  const PasswordTooShort: string := "Min length of password should be 6 characters."

  /** The stored user. `password` is present only when the read asked for it with
      `select("+password")`. */
  datatype User = User(
    id: Id,
    name: string,
    email: string,
    role: string,
    password: Option<string>,
    resetPasswordToken: Option<string>,
    resetPasswordExpire: Option<int>,
    createdAt: int)

  /** The fields a client supplies at registration; `None` is an absent field. */
  datatype UserInput = UserInput(
    name: Option<string>,
    email: Option<string>,
    password: Option<string>,
    role: Option<string>)

  /** Length in UTF-16 code units, the unit of JavaScript's `length`. */
  function Utf16Length(s: string): (n: nat)
    ensures n >= |s|
  {
    if |s| == 0 then 0 else (if s[0] as int > 0xFFFF then 2 else 1) + Utf16Length(s[1..])
  }

  /** A required string path is missing when absent or empty. */
  predicate Missing(v: Option<string>) {
    v.None? || v.value == ""
  }

  /** The first failing validator of each path, in declaration order. */
  function NameError(v: Option<string>): Option<string> {
    if Missing(v) then Some(NameRequired) else None
  }

  function EmailError(v: Option<string>): (r: Option<string>)
    ensures r.None? <==> v.Some? && EmailPattern.IsValidEmail(v.value)
  {
    if Missing(v) then Some(EmailRequired)
    else if !EmailPattern.IsValidEmail(v.value) then Some(EmailInvalid)
    else None
  }

  /** Mongoose's default message of the `enum` validator. */
  function EnumMessage(value: string): string {
    "`" + value + "` is not a valid enum value for path `role`."
  }

  function RoleError(v: Option<string>): (r: Option<string>)
    ensures r.None? <==> v.None? || v.value in Roles
  {
    if v.Some? && v.value !in Roles then Some(EnumMessage(v.value)) else None
  }

  function PasswordError(v: Option<string>): (r: Option<string>)
    ensures r.None? <==> v.Some? && Utf16Length(v.value) >= MinPasswordLength
  {
    if Missing(v) then Some(PasswordRequired)
    else if Utf16Length(v.value) < MinPasswordLength then Some(PasswordTooShort)
    else None
  }

  /** The messages of the failing checks, in the order of the checks. */
  function Collect(checks: seq<Option<string>>): (msgs: seq<string>)
    ensures |msgs| <= |checks|
    ensures msgs == [] <==> forall k :: 0 <= k < |checks| ==> checks[k].None?
    ensures forall k :: 0 <= k < |checks| && checks[k].Some? ==> checks[k].value in msgs
    ensures forall m :: m in msgs ==> Some(m) in checks
  {
    if |checks| == 0 then []
    else (if checks[0].Some? then [checks[0].value] else []) + Collect(checks[1..])
  }

  /** The messages of a failed validation, one per failing path. Mongoose validates
      the required paths (`name`, `email`, `password`) before the others, so the
      role's message comes last. */
  function ValidationMessages(u: UserInput): seq<string> {
    Collect([NameError(u.name), EmailError(u.email), PasswordError(u.password), RoleError(u.role)])
  }

  function RoleOrDefault(role: Option<string>): string {
    role.GetOr(DefaultRole)
  }

  /** A new user passes validation exactly when it has a name, a well-formed email, a
      role that is `user` or `publisher` or none at all, and a password of six or
      more characters; `admin` is never accepted, and the stored role is then `user`
      or `publisher`. */
  lemma {:induction false} ValidUserShape(u: UserInput)
    ensures ValidationMessages(u) == [] <==>
      && !Missing(u.name)
      && u.email.Some? && EmailPattern.IsValidEmail(u.email.value)
      && (u.role.None? || u.role.value in Roles)
      && u.password.Some? && Utf16Length(u.password.value) >= MinPasswordLength
    ensures ValidationMessages(u) == [] ==> RoleOrDefault(u.role) in Roles
    ensures u.role == Some("admin") ==> ValidationMessages(u) != []
  {
    var checks := [NameError(u.name), EmailError(u.email), PasswordError(u.password), RoleError(u.role)];
    assert checks[0] == NameError(u.name) && checks[1] == EmailError(u.email);
    assert checks[2] == PasswordError(u.password) && checks[3] == RoleError(u.role);
  }

  /** An ordinary read (no `select("+password")`) never carries the password. */
  function DefaultSelection(u: User): (v: User)
    ensures v.password.None?
    ensures v.(password := u.password) == u
  {
    u.(password := None)
  }

  // ---------------------------------------------------------------------------
  // `crypto.randomBytes(20).toString("hex")`.

  newtype byte = x: int | 0 <= x < 256

  /** The number of random bytes a reset token is drawn from. */
  const TokenBytes: nat := 20

  /** The digit of `n` among `0123456789abcdef`. */
  function HexDigit(n: int): char
    requires 0 <= n < 16
  {
    if n < 10 then ('0' as int + n) as char else ('a' as int + n - 10) as char
  }

  function HexValue(c: char): int {
    if '0' <= c <= '9' then c as int - '0' as int
    else if 'a' <= c <= 'f' then c as int - 'a' as int + 10
    else 0
  }

  /** Lower-case hexadecimal, two digits per byte, high nibble first. */
  function Hex(bytes: seq<byte>): (h: string)
    ensures |h| == 2 * |bytes|
  {
    if |bytes| == 0 then ""
    else [HexDigit(bytes[0] as int / 16), HexDigit(bytes[0] as int % 16)] + Hex(bytes[1..])
  }

  function Unhex(h: string): seq<byte>
    requires |h| % 2 == 0
    decreases |h|
  {
    if |h| == 0 then []
    else
      var v := HexValue(h[0]) * 16 + HexValue(h[1]);
      [if 0 <= v < 256 then v as byte else 0] + Unhex(h[2..])
  }

  /** The hexadecimal text determines the bytes. */
  lemma {:induction false} UnhexHex(bytes: seq<byte>)
    ensures Unhex(Hex(bytes)) == bytes
  {
    if |bytes| > 0 {
      var b := bytes[0] as int;
      HexStep(bytes);
      HexDigitValue(b / 16);
      HexDigitValue(b % 16);
      UnhexHex(bytes[1..]);
    }
  }

  lemma {:induction false} HexDigitValue(n: int)
    requires 0 <= n < 16
    ensures HexValue(HexDigit(n)) == n
  {
  }

  lemma {:induction false} HexStep(bytes: seq<byte>)
    requires |bytes| > 0
    ensures Hex(bytes)[0] == HexDigit(bytes[0] as int / 16)
    ensures Hex(bytes)[1] == HexDigit(bytes[0] as int % 16)
    ensures Hex(bytes)[2..] == Hex(bytes[1..])
  {
  }

  /** A loaded user document, whose reset fields `getResetPasswordToken` writes. */
  class UserDocument {
    var user: User

    constructor (u: User)
      ensures user == u
    {
      user := u;
    }

    /** Draws a token from `random` (the 20 random bytes), stores its SHA-256 digest
        (`sha256`) and an expiry ten minutes after `now`, and returns the token. */
    method GetResetPasswordToken(now: int, random: seq<byte>, sha256: string -> string)
      returns (resetToken: string)
      requires |random| == TokenBytes
      modifies this
      ensures resetToken == Hex(random) && |resetToken| == 40
      ensures user == old(user).(resetPasswordToken := Some(sha256(resetToken)),
                                 resetPasswordExpire := Some(now + ResetWindow))
      ensures user.resetPasswordExpire == Some(now + 600000)
    {
      resetToken := Hex(random);
      user := user.(resetPasswordToken := Some(sha256(resetToken)));
      user := user.(resetPasswordExpire := Some(now + 10 * 60 * 1000));
    }
  }
}
