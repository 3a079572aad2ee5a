/** The Authorization header as both middlewares read it: the value is split
    on every single space, JavaScript `split(" ")`-style, and the token is the
    field at index 1. */
module Bearer {

  import opened Wrappers

  /** `s.split(" ")`: the maximal space-free runs of `s`, in order, including
      the empty runs between adjacent spaces and at either end. */
  function Split(s: string): (fields: seq<string>)
    ensures |fields| >= 1
    decreases |s|
  {
    if s == [] then [""]
    else if s[0] == ' ' then [""] + Split(s[1..])
    else
      var rest := Split(s[1..]);
      [[s[0]] + rest[0]] + rest[1..]
  }

  /** `fields.join(" ")`, the inverse of `Split`. */
  function Join(fields: seq<string>): (s: string)
    requires |fields| >= 1
    decreases |fields|
  {
    if |fields| == 1 then fields[0] else fields[0] + " " + Join(fields[1..])
  }

  /** `s.split(" ")[1]`: the second field, or `undefined` when there is none. */
  function SecondField(s: string): (token: Option<string>)
    ensures token.None? <==> ' ' !in s
    ensures token.Some? ==> ' ' !in token.value
  {
    SingleFieldIff(s);
    FieldsSpaceFree(s);
    var fields := Split(s);
    if |fields| > 1 then Some(fields[1]) else None
  }

  /** The leading space-free run of `s`: `s.split(" ")[0]`. */
  function FirstField(s: string): string
  {
    Split(s)[0]
  }

  /** Splitting loses nothing: joining the fields back with single spaces
      gives the original header. */
  lemma {:induction false} JoinSplit(s: string)
    ensures Join(Split(s)) == s
    decreases |s|
  {
    if s == [] {
    } else if s[0] == ' ' {
      JoinSplit(s[1..]);
      assert s == " " + s[1..];
    } else {
      var rest := Split(s[1..]);
      JoinSplit(s[1..]);
      if |rest| == 1 {
        assert s == [s[0]] + s[1..];
      } else {
        calc {
          Join(Split(s));
          ([s[0]] + rest[0]) + " " + Join(rest[1..]);
          [s[0]] + (rest[0] + " " + Join(rest[1..]));
          [s[0]] + Join(rest);
          s;
        }
      }
    }
  }

  /** No field contains a space. */
  lemma {:induction false} FieldsSpaceFree(s: string)
    ensures forall i :: 0 <= i < |Split(s)| ==> ' ' !in Split(s)[i]
    decreases |s|
  {
    if s != [] {
      FieldsSpaceFree(s[1..]);
    }
  }

  /** There is a second field exactly when the header contains a space. */
  lemma {:induction false} SingleFieldIff(s: string)
    ensures |Split(s)| == 1 <==> ' ' !in s
    decreases |s|
  {
    if s != [] {
      SingleFieldIff(s[1..]);
      assert ' ' in s <==> s[0] == ' ' || ' ' in s[1..] by {
        assert s == [s[0]] + s[1..];
      }
    }
  }

  /** Splitting `scheme + " " + rest`, for a space-free scheme, gives the
      scheme followed by the fields of `rest`. */
  lemma {:induction false} SplitAfterScheme(scheme: string, rest: string)
    requires ' ' !in scheme
    ensures Split(scheme + " " + rest) == [scheme] + Split(rest)
    decreases |scheme|
  {
    var s := scheme + " " + rest;
    if scheme == [] {
      assert s == " " + rest;
      assert s[1..] == rest;
    } else {
      assert s[0] == scheme[0] && scheme[0] != ' ';
      assert s[1..] == scheme[1..] + " " + rest;
      SplitAfterScheme(scheme[1..], rest);
      assert [scheme[0]] + scheme[1..] == scheme;
    }
  }

  /** The first field is the longest space-free prefix: it is a prefix, and
      it ends at the end of the string or just before a space. */
  lemma {:induction false} FirstFieldIsRun(s: string)
    ensures FirstField(s) <= s
    ensures ' ' !in FirstField(s)
    ensures |FirstField(s)| < |s| ==> s[|FirstField(s)|] == ' '
    decreases |s|
  {
    FieldsSpaceFree(s);
    if s != [] && s[0] != ' ' {
      FirstFieldIsRun(s[1..]);
      assert FirstField(s) == [s[0]] + FirstField(s[1..]);
    }
  }

  /** The token of `scheme + " " + rest` is the leading space-free run of
      `rest`, not the whole of `rest`: with a space-free scheme there always
      is one, and it is empty when `rest` starts with a space. */
  lemma TokenOfBearer(scheme: string, rest: string)
    requires ' ' !in scheme
    ensures SecondField(scheme + " " + rest) == Some(FirstField(rest))
  {
    SplitAfterScheme(scheme, rest);
  }

  /** `scheme + " " + token + tail`, where the token is space-free and the
      tail is empty or starts with a space, yields exactly that token. */
  lemma TokenExact(scheme: string, token: string, tail: string)
    requires ' ' !in scheme && ' ' !in token
    requires tail == [] || tail[0] == ' '
    ensures SecondField(scheme + " " + token + tail) == Some(token)
  {
    assert scheme + " " + token + tail == scheme + " " + (token + tail);
    TokenOfBearer(scheme, token + tail);
    FirstFieldOf(token, tail);
  }

  /** The leading run of `token + tail` is `token` when the token is
      space-free and the tail is empty or starts with a space. */
  lemma {:induction false} FirstFieldOf(token: string, tail: string)
    requires ' ' !in token
    requires tail == [] || tail[0] == ' '
    ensures FirstField(token + tail) == token
    decreases |token|
  {
    var s := token + tail;
    if token == [] {
      assert s == tail;
    } else {
      assert s[0] == token[0];
      assert s[1..] == token[1..] + tail;
      FirstFieldOf(token[1..], tail);
      assert [token[0]] + token[1..] == token;
    }
  }

  /** The cases the middlewares meet in practice. */
  lemma HeaderExamples()
    ensures SecondField("Bearer abc") == Some("abc")
    ensures SecondField("Bearer  abc") == Some("")
    ensures SecondField("Bearer abc def") == Some("abc")
    ensures SecondField("Bearer") == None
    ensures SecondField("") == None
  {
    TokenExact("Bearer", "abc", "");
    assert "Bearer abc" == "Bearer" + " " + "abc" + "";
    TokenExact("Bearer", "", " abc");
    assert "Bearer  abc" == "Bearer" + " " + "" + " abc";
    TokenExact("Bearer", "abc", " def");
    assert "Bearer abc def" == "Bearer" + " " + "abc" + " def";
  }
}
