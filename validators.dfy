/** `email_validator` of app/validators.py: the address is lower-cased and
    run through the e-mail syntax validator, the domain of the normalised
    address is looked up in a two-entry blacklist, and the ORIGINAL input is
    what an accepted address returns. The syntax validator is a library
    routine; it is a parameter here, returning the normalised address or
    nothing when the input is not an address. */
module Validators {
  import opened Outcomes

  const BLACKLISTED_DOMAINS: seq<string> := ["tempmail.com", "disposable.com"]

  datatype ValidationError =
    | NotAnEmail         // the syntax validator refused the address
    | NoDomainPart       // `split("@")[1]` would raise IndexError
    | DomainNotAllowed   // "Email domain not allowed"

  function LowerChar(c: char): (lc: char)
  {
    if 'A' <= c <= 'Z' then (c as int + 32) as char else c
  }

  /** `str.lower()` on the ASCII letters. */
  function Lower(s: string): (r: string)
    ensures |r| == |s|
    ensures forall i :: 0 <= i < |s| ==> r[i] == LowerChar(s[i])
  {
    seq(|s|, i requires 0 <= i < |s| => LowerChar(s[i]))
  }

  lemma LowerIdempotent(s: string)
    ensures Lower(Lower(s)) == Lower(s)
  {
  }

  lemma LowerConcat(a: string, b: string)
    ensures Lower(a + b) == Lower(a) + Lower(b)
  {
    assert forall i :: 0 <= i < |a + b| ==> Lower(a + b)[i] == (Lower(a) + Lower(b))[i];
  }

  /** `s.split(sep)`: the pieces between occurrences of `sep`; there is
      always at least one piece and no piece contains `sep`. */
  function Split(s: string, sep: char): (parts: seq<string>)
    ensures |parts| >= 1
    ensures |parts| == 1 <==> sep !in s
    ensures forall i :: 0 <= i < |parts| ==> sep !in parts[i]
    decreases |s|
  {
    if |s| == 0 then [""]
    else
      var rest := Split(s[1..], sep);
      if s[0] == sep then [""] + rest
      else
        assert sep in s <==> sep in s[1..] by { assert s == [s[0]] + s[1..]; }
        [[s[0]] + rest[0]] + rest[1..]
  }

  /** `sep.join(parts)` */
  function Join(parts: seq<string>, sep: char): (s: string)
  {
    if |parts| == 0 then ""
    else if |parts| == 1 then parts[0]
    else parts[0] + [sep] + Join(parts[1..], sep)
  }

  /** Splitting loses nothing: joining the pieces gives the string back. */
  lemma {:induction false} JoinSplit(s: string, sep: char)
    ensures Join(Split(s, sep), sep) == s
    decreases |s|
  {
    if |s| > 0 {
      var rest := Split(s[1..], sep);
      JoinSplit(s[1..], sep);
      if s[0] == sep {
        assert Split(s, sep) == [""] + rest;
        assert Join([""] + rest, sep) == "" + [sep] + Join(rest, sep);
        assert s == [s[0]] + s[1..];
      } else if |rest| == 1 {
        assert Split(s, sep) == [[s[0]] + rest[0]];
        assert s == [s[0]] + s[1..];
      } else {
        var parts := Split(s, sep);
        assert parts == [[s[0]] + rest[0]] + rest[1..];
        assert parts[1..] == rest[1..];
        assert Join(parts, sep) == ([s[0]] + rest[0]) + [sep] + Join(rest[1..], sep);
        assert Join(rest, sep) == rest[0] + [sep] + Join(rest[1..], sep);
        assert s == [s[0]] + s[1..];
      }
    }
  }

  /** The first piece is everything before the first `sep`. */
  lemma {:induction false} SplitAtFirst(local: string, rest: string, sep: char)
    requires sep !in local
    ensures Split(local + [sep] + rest, sep) == [local] + Split(rest, sep)
    decreases |local|
  {
    var s := local + [sep] + rest;
    if |local| == 0 {
      assert s[1..] == rest;
    } else {
      SplitAtFirst(local[1..], rest, sep);
      assert s[1..] == local[1..] + [sep] + rest;
      assert [local[0]] + local[1..] == local;
    }
  }

  /** `normalized.split("@")[1]`: the text after the first `@`, up to the
      next `@` if there is one. */
  function DomainOf(normalized: string): (d: Option<string>)
    ensures d.Some? <==> '@' in normalized
    ensures d.Some? ==> '@' !in d.value
  {
    var parts := Split(normalized, '@');
    if |parts| >= 2 then Some(parts[1]) else None
  }

  /** An address `local@domain` (one `@`) has exactly `domain` as its domain. */
  lemma DomainAfterFirstAt(local: string, domain: string)
    requires '@' !in local && '@' !in domain
    ensures DomainOf(local + "@" + domain) == Some(domain)
  {
    SplitAtFirst(local, domain, '@');
    JoinSplit(domain, '@');
    assert Split(domain, '@') == [domain];
  }

  /** `email_validator(email)`, given the syntax validator `validate`. */
  function EmailValidator(email: string, validate: string -> Option<string>): (r: Result<string, ValidationError>)
    ensures r.Ok? ==> r.value == email
    ensures r.Ok? <==>
              validate(Lower(email)).Some? &&
              DomainOf(validate(Lower(email)).value).Some? &&
              DomainOf(validate(Lower(email)).value).value !in BLACKLISTED_DOMAINS
    ensures r == Err(NotAnEmail) <==> validate(Lower(email)) == None
    ensures r == Err(NoDomainPart) <==>
              validate(Lower(email)).Some? && DomainOf(validate(Lower(email)).value).None?
    ensures r == Err(DomainNotAllowed) <==>
              validate(Lower(email)).Some? &&
              DomainOf(validate(Lower(email)).value).Some? &&
              DomainOf(validate(Lower(email)).value).value in BLACKLISTED_DOMAINS
  {
    match validate(Lower(email))
    case None => Err(NotAnEmail)
    case Some(normalized) =>
      match DomainOf(normalized)
      case None => Err(NoDomainPart)
      case Some(domain) =>
        if domain in BLACKLISTED_DOMAINS then Err(DomainNotAllowed) else Ok(email)
  }

  /** The decision depends only on the lower-cased address: two inputs that
      differ only in letter case are accepted or refused alike. */
  lemma CaseInsensitive(e1: string, e2: string, validate: string -> Option<string>)
    requires Lower(e1) == Lower(e2)
    ensures EmailValidator(e1, validate).Ok? == EmailValidator(e2, validate).Ok?
    ensures EmailValidator(e1, validate).Err? ==> EmailValidator(e1, validate) == EmailValidator(e2, validate)
    ensures EmailValidator(e1, validate) == Ok(e1) <==> EmailValidator(Lower(e1), validate) == Ok(Lower(e1))
  {
    LowerIdempotent(e1);
  }

  /** For a validator that leaves a lower-case address as it is, an address
      `local@domain` is refused exactly when its lower-cased domain is one of
      the two blacklisted ones; any other domain, subdomains of the
      blacklisted ones included, is accepted and the input is returned. */
  lemma BlacklistDecides(local: string, domain: string, validate: string -> Option<string>)
    requires '@' !in local && '@' !in domain
    requires validate(Lower(local + "@" + domain)) == Some(Lower(local + "@" + domain))
    ensures EmailValidator(local + "@" + domain, validate) ==
              if Lower(domain) in BLACKLISTED_DOMAINS then Err(DomainNotAllowed)
              else Ok(local + "@" + domain)
  {
    LowerConcat(local + "@", domain);
    LowerConcat(local, "@");
    assert Lower("@") == "@";
    assert '@' !in Lower(local) by {
      forall i | 0 <= i < |local| ensures Lower(local)[i] != '@' { }
    }
    assert '@' !in Lower(domain) by {
      forall i | 0 <= i < |domain| ensures Lower(domain)[i] != '@' { }
    }
    DomainAfterFirstAt(Lower(local), Lower(domain));
  }

  /** "Alice@TempMail.COM" is refused, whatever its letter case. */
  lemma MixedCaseBlacklistedRefused(validate: string -> Option<string>)
    requires validate("alice@tempmail.com") == Some("alice@tempmail.com")
    ensures EmailValidator("Alice@TempMail.COM", validate) == Err(DomainNotAllowed)
  {
    assert Lower("Alice@TempMail.COM") == "alice@tempmail.com";
    assert "alice@tempmail.com" == "alice" + "@" + "tempmail.com";
    DomainAfterFirstAt("alice", "tempmail.com");
  }
}
