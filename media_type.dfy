/**
 * The content-type test that `request.formData()` makes before it reads a
 * body (app/api/upload/route.ts, line 96). It throws unless the header's
 * essence, the lower-cased `type/subtype` without parameters, is
 * `multipart/form-data` or `application/x-www-form-urlencoded`. The route
 * catches that throw and answers 500. The header is read here as a single
 * MIME type; a comma-joined list of values, which the Fetch standard splits
 * and reads from the last valid entry, is not modelled.
 */
module MediaType {

  const MultipartFormData: string := "multipart/form-data"
  const UrlEncodedForm: string := "application/x-www-form-urlencoded"

  /** HTTP whitespace: space, tab, carriage return, line feed. */
  predicate IsHttpWhitespace(c: char) {
    c == ' ' || c == '\t' || c == '\r' || c == '\n'
  }

  /** `s` without its leading HTTP whitespace. */
  function TrimStart(s: string): (r: string)
    ensures |r| <= |s| && r == s[|s| - |r|..]
    ensures forall i :: 0 <= i < |s| - |r| ==> IsHttpWhitespace(s[i])
    ensures r == [] || !IsHttpWhitespace(r[0])
  {
    if s != [] && IsHttpWhitespace(s[0]) then TrimStart(s[1..]) else s
  }

  /** `s` without its trailing HTTP whitespace. */
  function TrimEnd(s: string): (r: string)
    ensures |r| <= |s| && r == s[..|r|]
    ensures forall i :: |r| <= i < |s| ==> IsHttpWhitespace(s[i])
    ensures r == [] || !IsHttpWhitespace(r[|r| - 1])
  {
    if s != [] && IsHttpWhitespace(s[|s| - 1]) then TrimEnd(s[..|s| - 1]) else s
  }

  /** The part of `s` before its first ';', where the parameters begin. */
  function BeforeParameters(s: string): (r: string)
    ensures |r| <= |s| && r == s[..|r|]
    ensures ';' !in r
    ensures |r| < |s| ==> s[|r|] == ';'
  {
    if s == [] || s[0] == ';' then [] else [s[0]] + BeforeParameters(s[1..])
  }

  /** ASCII lower case; every other character is left alone. */
  function LowerChar(c: char): (l: char) {
    if 'A' <= c <= 'Z' then (c as int - 'A' as int + 'a' as int) as char else c
  }

  function AsciiLower(s: string): (r: string)
    ensures |r| == |s| && forall i :: 0 <= i < |s| ==> r[i] == LowerChar(s[i])
  {
    seq(|s|, i requires 0 <= i < |s| => LowerChar(s[i]))
  }

  /**
   * The essence of a header value: leading whitespace dropped, cut at the
   * first ';', trailing whitespace dropped, lower-cased.
   */
  function Essence(contentType: string): (r: string)
    ensures |r| <= |contentType|
  {
    AsciiLower(TrimEnd(BeforeParameters(TrimStart(contentType))))
  }

  /** The header names one of the two body types `formData()` reads. */
  predicate IsFormMediaType(contentType: string) {
    var e := Essence(contentType);
    e == MultipartFormData || e == UrlEncodedForm
  }

  /** The parameters of a header do not change its essence. */
  lemma {:induction false} BeforeParametersPrefix(t: string, params: string)
    requires ';' !in t
    ensures BeforeParameters(t + ";" + params) == t
    decreases |t|
  {
    if t == [] {
      assert (t + ";" + params)[0] == ';';
    } else {
      assert (t + ";" + params)[1..] == t[1..] + ";" + params;
      BeforeParametersPrefix(t[1..], params);
    }
  }

  /** A multipart header with its boundary parameter names a form body. */
  lemma MultipartWithBoundary(boundary: string)
    ensures IsFormMediaType("multipart/form-data; boundary=" + boundary)
  {
    var t, params := MultipartFormData, " boundary=" + boundary;
    var h := t + ";" + params;
    assert "multipart/form-data; boundary=" + boundary == h;
    assert h[0] == t[0];
    KeepsStart(h);
    BeforeParametersPrefix(t, params);
    KeepsEnd(t);
    MultipartIsLower();
  }

  /** A text that does not start with whitespace is left alone by `TrimStart`. */
  lemma KeepsStart(s: string)
    requires s != [] && !IsHttpWhitespace(s[0])
    ensures TrimStart(s) == s
  {
  }

  /** A text that does not end with whitespace is left alone by `TrimEnd`. */
  lemma KeepsEnd(s: string)
    requires s != [] && !IsHttpWhitespace(s[|s| - 1])
    ensures TrimEnd(s) == s
  {
  }

  lemma MultipartIsLower()
    ensures AsciiLower(MultipartFormData) == MultipartFormData
  {
  }

  /** Upper case and surrounding whitespace are ignored: the test is case-insensitive. */
  lemma CaseInsensitive(contentType: string)
    ensures IsFormMediaType(contentType) <==> IsFormMediaType(AsciiLower(contentType))
  {
    LowerCommutes(contentType);
  }

  /** Lower-casing first or last gives the same essence. */
  lemma LowerCommutes(s: string)
    ensures Essence(AsciiLower(s)) == Essence(s)
  {
    var t := TrimStart(s);
    var b := BeforeParameters(t);
    var e := TrimEnd(b);
    calc {
      Essence(AsciiLower(s));
      AsciiLower(TrimEnd(BeforeParameters(TrimStart(AsciiLower(s)))));
      { TrimStartLower(s); }
      AsciiLower(TrimEnd(BeforeParameters(AsciiLower(t))));
      { BeforeParametersLower(t); }
      AsciiLower(TrimEnd(AsciiLower(b)));
      { TrimEndLower(b); }
      AsciiLower(AsciiLower(e));
      { LowerTwice(e); }
      AsciiLower(e);
    }
  }

  lemma LowerTwice(s: string)
    ensures AsciiLower(AsciiLower(s)) == AsciiLower(s)
  {
  }

  lemma {:induction false} TrimStartLower(s: string)
    ensures TrimStart(AsciiLower(s)) == AsciiLower(TrimStart(s))
    decreases |s|
  {
    var l := AsciiLower(s);
    if s == [] {
    } else if IsHttpWhitespace(s[0]) {
      assert IsHttpWhitespace(l[0]);
      LowerTail(s);
      TrimStartLower(s[1..]);
      calc {
        TrimStart(l);
        TrimStart(l[1..]);
        TrimStart(AsciiLower(s[1..]));
        AsciiLower(TrimStart(s[1..]));
        AsciiLower(TrimStart(s));
      }
    } else {
      assert !IsHttpWhitespace(l[0]);
      KeepsStart(l);
      KeepsStart(s);
    }
  }

  lemma {:induction false} TrimEndLower(s: string)
    ensures TrimEnd(AsciiLower(s)) == AsciiLower(TrimEnd(s))
    decreases |s|
  {
    var l := AsciiLower(s);
    if s == [] {
    } else if IsHttpWhitespace(s[|s| - 1]) {
      assert IsHttpWhitespace(l[|l| - 1]);
      LowerInit(s);
      TrimEndLower(s[..|s| - 1]);
      calc {
        TrimEnd(l);
        TrimEnd(l[..|l| - 1]);
        TrimEnd(AsciiLower(s[..|s| - 1]));
        AsciiLower(TrimEnd(s[..|s| - 1]));
        AsciiLower(TrimEnd(s));
      }
    } else {
      assert !IsHttpWhitespace(l[|l| - 1]);
      KeepsEnd(l);
      KeepsEnd(s);
    }
  }

  lemma LowerInit(s: string)
    requires s != []
    ensures AsciiLower(s)[..|s| - 1] == AsciiLower(s[..|s| - 1])
  {
  }

  lemma {:induction false} BeforeParametersLower(s: string)
    ensures BeforeParameters(AsciiLower(s)) == AsciiLower(BeforeParameters(s))
    decreases |s|
  {
    var l := AsciiLower(s);
    if s == [] {
    } else if s[0] == ';' {
      assert l[0] == ';';
    } else {
      assert l[0] == LowerChar(s[0]) != ';';
      LowerTail(s);
      BeforeParametersLower(s[1..]);
      calc {
        BeforeParameters(l);
        [l[0]] + BeforeParameters(l[1..]);
        [LowerChar(s[0])] + AsciiLower(BeforeParameters(s[1..]));
        { LowerCons(s[0], BeforeParameters(s[1..])); }
        AsciiLower([s[0]] + BeforeParameters(s[1..]));
      }
    }
  }

  lemma LowerTail(s: string)
    requires s != []
    ensures AsciiLower(s)[1..] == AsciiLower(s[1..])
  {
  }

  lemma LowerCons(c: char, s: string)
    ensures AsciiLower([c] + s) == [LowerChar(c)] + AsciiLower(s)
  {
  }

  /** A header shorter than both form types cannot name one. */
  lemma ShortIsNotForm(contentType: string)
    requires |contentType| < |MultipartFormData|
    ensures !IsFormMediaType(contentType)
  {
  }

  /** A missing header (read as "") and a plain-text header name no form body. */
  lemma NotFormMediaTypes()
    ensures !IsFormMediaType("")
    ensures !IsFormMediaType("text/plain")
  {
    ShortIsNotForm("");
    ShortIsNotForm("text/plain");
  }
}
