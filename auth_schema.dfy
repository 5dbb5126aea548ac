/** The signup and login body schemas (src/validators/auth.schema.js). */
module AuthSchema {
  import opened Wrappers
  import opened JsString
  import opened Json

  /** `passwordRule`: at least 8 characters, one of A-Z and one of 0-9. */
  predicate PasswordRule(p: string) {
    Utf16Length(p) >= 8 && HasUpper(p) && HasDigit(p)
  }

  datatype SignupBody = SignupBody(name: string, email: string, password: string)

  datatype LoginBody = LoginBody(email: string, password: string)

  /** `signupSchema`; `isEmail` stands for zod's `.email()` check. The parsed name is trimmed. */
  function ParseSignup(body: Value, isEmail: string -> bool): Option<SignupBody> {
    match (Field(body, "name"), Field(body, "email"), Field(body, "password"))
    case (Some(Str(n)), Some(Str(e)), Some(Str(p))) =>
      if body.Obj? && Utf16Length(Trim(n)) >= 2 && isEmail(e) && PasswordRule(p)
      then Some(SignupBody(Trim(n), e, p))
      else None
    case _ => None
  }

  /** `loginSchema`: the password needs only 8 characters. */
  function ParseLogin(body: Value, isEmail: string -> bool): Option<LoginBody> {
    match (Field(body, "email"), Field(body, "password"))
    case (Some(Str(e)), Some(Str(p))) =>
      if body.Obj? && isEmail(e) && Utf16Length(p) >= 8 then Some(LoginBody(e, p)) else None
    case _ => None
  }

  /** An accepted signup password has 8 characters, an upper-case letter and a digit. */
  lemma SignupPasswordRule(body: Value, isEmail: string -> bool)
    requires ParseSignup(body, isEmail).Some?
    ensures var p := ParseSignup(body, isEmail).value.password;
      Utf16Length(p) >= 8 && HasUpper(p) && HasDigit(p)
    ensures Field(body, "password") == Some(Str(ParseSignup(body, isEmail).value.password))
  {
  }

  /** The accepted name is the trimmed input, and it still has at least two characters. */
  lemma SignupNameTrimmed(body: Value, isEmail: string -> bool)
    requires ParseSignup(body, isEmail).Some?
    ensures var n := ParseSignup(body, isEmail).value.name;
      IsTrimmed(n) && Utf16Length(n) >= 2 && Trim(n) == n
    ensures Field(body, "name").value.Str? && ParseSignup(body, isEmail).value.name == Trim(Field(body, "name").value.s)
  {
    var raw := Field(body, "name").value.s;
    TrimIsTrimmed(raw);
    TrimIdempotent(raw);
  }

  /** A name shorter than two characters once trimmed is rejected. */
  lemma ShortNameRejected(body: Value, isEmail: string -> bool)
    requires Field(body, "name").Some? && Field(body, "name").value.Str?
    requires Utf16Length(Trim(Field(body, "name").value.s)) < 2
    ensures ParseSignup(body, isEmail).None?
  {
  }

  /** A name of one letter padded with spaces is rejected: the length is counted after trimming. */
  lemma PaddedShortNameRejected(isEmail: string -> bool)
    ensures ParseSignup(Obj(map["name" := Str("  a  "), "email" := Str("a@b.c"), "password" := Str("Password1")]), isEmail).None?
  {
    var body := Obj(map["name" := Str("  a  "), "email" := Str("a@b.c"), "password" := Str("Password1")]);
    assert body.fields["name"] == Str("  a  ");
    PaddedLetterTrimsToOneLetter();
    assert Utf16Length("a") == 1;
    ShortNameRejected(body, isEmail);
  }

  lemma PaddedLetterTrimsToOneLetter()
    ensures Trim("  a  ") == "a"
  {
    LeadingSpacesDropped();
    TrailingSpacesDropped();
  }

  lemma LeadingSpacesDropped()
    ensures TrimStart("  a  ") == "a  "
  {
    assert "  a  "[1..] == " a  " && " a  "[1..] == "a  ";
    TrimStartSkipsWhite("  a  ");
    TrimStartSkipsWhite(" a  ");
    assert "a  "[0] == 'a';
  }

  lemma TrailingSpacesDropped()
    ensures TrimEnd("a  ") == "a"
  {
    assert "a  "[..2] == "a " && "a "[..1] == "a";
    TrimEndSkipsWhite("a  ");
    TrimEndSkipsWhite("a ");
    assert "a"[0] == 'a';
  }

  /** Any body signup accepts, login accepts with the same email and password. */
  lemma LoginAcceptsEverySignupBody(body: Value, isEmail: string -> bool)
    requires ParseSignup(body, isEmail).Some?
    ensures ParseLogin(body, isEmail) == Some(LoginBody(ParseSignup(body, isEmail).value.email, ParseSignup(body, isEmail).value.password))
  {
  }

  /** A signup password without an upper-case letter is rejected. */
  lemma PasswordWithoutUpperRejected(body: Value, isEmail: string -> bool)
    requires Field(body, "password").Some? && Field(body, "password").value.Str?
    requires !HasUpper(Field(body, "password").value.s)
    ensures ParseSignup(body, isEmail).None?
  {
  }

  /** The converse fails: login has no character-class rule. */
  lemma LoginHasNoCharacterClassRule(isEmail: string -> bool)
    requires isEmail("a@b.c")
    ensures ParseLogin(Obj(map["email" := Str("a@b.c"), "password" := Str("abcdefgh")]), isEmail).Some?
    ensures ParseSignup(Obj(map["name" := Str("Al"), "email" := Str("a@b.c"), "password" := Str("abcdefgh")]), isEmail).None?
  {
    var p := "abcdefgh";
    LowercaseWord();
    var login := Obj(map["email" := Str("a@b.c"), "password" := Str(p)]);
    assert Field(login, "email") == Some(Str("a@b.c")) && Field(login, "password") == Some(Str(p));
    var signup := Obj(map["name" := Str("Al"), "email" := Str("a@b.c"), "password" := Str(p)]);
    assert Field(signup, "password") == Some(Str(p));
    PasswordWithoutUpperRejected(signup, isEmail);
  }

  lemma LowercaseWord()
    ensures !HasUpper("abcdefgh") && Utf16Length("abcdefgh") == 8
  {
    var p := "abcdefgh";
    forall i | 0 <= i < |p| ensures !IsUpperAscii(p[i]) {
    }
  }

  /** Typical passwords against the rule. */
  lemma PasswordRuleExamples()
    ensures PasswordRule("Password1")
    ensures !PasswordRule("password123")   // no upper-case letter
    ensures !PasswordRule("Password")      // no digit
    ensures !PasswordRule("Pass1")         // too short
  {
    assert IsUpperAscii("Password1"[0]) && IsDigit("Password1"[8]);
    var lower := "password123";
    assert !HasUpper(lower) by {
      forall i | 0 <= i < |lower| ensures !IsUpperAscii(lower[i]) {
      }
    }
    var noDigit := "Password";
    assert !HasDigit(noDigit) by {
      forall i | 0 <= i < |noDigit| ensures !IsDigit(noDigit[i]) {
      }
    }
  }
}
