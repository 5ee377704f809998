/**
 * The `verifyFBToken` middleware: the cheap checks on the authorization
 * header, then the identity provider's `verifyIdToken`, which the model
 * takes as a parameter: a function from token to the email it carries, or
 * `None` when the provider refuses the token.
 */
module Auth {
  import opened Wrappers
  import opened Http

  /** The fields separated by `sep`, joined back with `sep` between them. */
  function Join(fields: seq<string>, sep: char): string
    requires |fields| >= 1
  {
    if |fields| == 1 then fields[0] else fields[0] + [sep] + Join(fields[1..], sep)
  }

  /**
   * JavaScript's `s.split(sep)` for a one-character separator: every
   * occurrence of `sep` ends a field, so neighbouring separators give an
   * empty field, and the empty string gives one empty field.
   */
  function Split(s: string, sep: char): (fields: seq<string>)
    ensures |fields| >= 1
    ensures forall i :: 0 <= i < |fields| ==> sep !in fields[i]
    ensures Join(fields, sep) == s
  {
    if s == [] then [[]]
    else
      var rest := Split(s[1..], sep);
      if s[0] == sep then
        assert ([[]] + rest)[1..] == rest;
        [[]] + rest
      else
        var fields := [[s[0]] + rest[0]] + rest[1..];
        assert |rest| > 1 ==> fields[1..] == rest[1..] && Join(rest, sep) == rest[0] + [sep] + Join(rest[1..], sep);
        assert s == [s[0]] + s[1..];
        fields
  }

  /** A string without the separator is a single field. */
  lemma {:induction false} SplitWithoutSeparator(a: string, sep: char)
    requires sep !in a
    ensures Split(a, sep) == [a]
  {
    if a != [] {
      SplitWithoutSeparator(a[1..], sep);
    }
  }

  /** The first separator ends the first field. */
  lemma {:induction false} SplitAtFirstSeparator(a: string, b: string, sep: char)
    requires sep !in a
    ensures Split(a + [sep] + b, sep) == [a] + Split(b, sep)
  {
    var s := a + [sep] + b;
    if a == [] {
      assert s[0] == sep && s[1..] == b;
    } else {
      assert s[0] == a[0] && s[1..] == a[1..] + [sep] + b;
      SplitAtFirstSeparator(a[1..], b, sep);
      assert [a[0]] + a[1..] == a;
    }
  }

  /** Split inverts Join: fields free of the separator come back unchanged. */
  lemma {:induction false} SplitJoin(fields: seq<string>, sep: char)
    requires |fields| >= 1
    requires forall i :: 0 <= i < |fields| ==> sep !in fields[i]
    ensures Split(Join(fields, sep), sep) == fields
  {
    if |fields| == 1 {
      SplitWithoutSeparator(fields[0], sep);
    } else {
      SplitJoin(fields[1..], sep);
      SplitAtFirstSeparator(fields[0], Join(fields[1..], sep), sep);
      assert [fields[0]] + fields[1..] == fields;
    }
  }

  /**
   * `authHeader.split(" ")[1]` behind the two 401 checks: `None` when the
   * header is missing or empty, when it has no space, or when the text after
   * the first space is empty or starts with another space.
   */
  function BearerToken(header: Option<string>): (token: Option<string>)
    ensures header.None? || header == Some("") ==> token.None?
    ensures token.Some? ==> token.value != [] && ' ' !in token.value
  {
    if header.None? || header.value == [] then None
    else
      var fields := Split(header.value, ' ');
      if |fields| < 2 || fields[1] == [] then None else Some(fields[1])
  }

  /** `header` is a space-free scheme, a space, `token`, then nothing or text after another space. */
  predicate HeaderShape(header: string, scheme: string, token: string, tail: string)
  {
    && ' ' !in scheme
    && (tail == [] || tail[0] == ' ')
    && header == scheme + " " + token + tail
  }

  /** A header of the form `<scheme> <token>`, possibly followed by a space and more, yields the token. */
  lemma BearerTokenOf(header: string, scheme: string, token: string, tail: string)
    requires HeaderShape(header, scheme, token, tail)
    requires ' ' !in token && token != []
    ensures BearerToken(Some(header)) == Some(token)
  {
    assert header == scheme + [' '] + (token + tail);
    SplitAtFirstSeparator(scheme, token + tail, ' ');
    if tail == [] {
      assert token + tail == token;
      SplitWithoutSeparator(token, ' ');
    } else {
      assert token + tail == token + [' '] + tail[1..];
      SplitAtFirstSeparator(token, tail[1..], ' ');
    }
  }

  /** Conversely, a token is only ever the second space-separated field of the header. */
  lemma BearerTokenShape(header: string, token: string)
    requires BearerToken(Some(header)) == Some(token)
    ensures exists scheme, tail :: HeaderShape(header, scheme, token, tail)
  {
    var fields := Split(header, ' ');
    assert |fields| >= 2 && fields[1] == token;
    var scheme := fields[0];
    assert ' ' !in scheme;
    assert header == scheme + [' '] + Join(fields[1..], ' ');
    var tail := if |fields| == 2 then [] else [' '] + Join(fields[2..], ' ');
    assert Join(fields[1..], ' ') == token + tail by {
      assert fields[1..][0] == token;
      if |fields| > 2 { assert fields[1..][1..] == fields[2..]; }
    }
    assert HeaderShape(header, scheme, token, tail);
  }

  /**
   * `verifyFBToken`: 401 "unauthorized access" without consulting the
   * provider when the header yields no token; 401 when the provider refuses
   * the token; otherwise the request proceeds with the token's email.
   */
  function VerifyFBToken(header: Option<string>, verifyIdToken: string -> Option<string>): (g: Gate)
    ensures BearerToken(header).None? ==> g == Reject(401, "unauthorized access")
    ensures g.Reject? ==> g.code == 401
    ensures g.Proceed? <==> BearerToken(header).Some? && verifyIdToken(BearerToken(header).value).Some?
    ensures g.Proceed? ==> Some(g.email) == verifyIdToken(BearerToken(header).value)
  {
    match BearerToken(header)
    case None => Reject(401, "unauthorized access")
    case Some(token) =>
      match verifyIdToken(token)
      case None => Reject(401, "forbidden access 0")
      case Some(email) => Proceed(email)
  }
}
