/** JSON Pointer tokens: the two-pass escaping of metadata.go and patch.go, and the paths made of them. */
module JsonPointer {
  import opened Common
  import opened GoStrings

  function Encode(token: string): string {
    ReplaceAll(ReplaceAll(token, "~", "~0"), "/", "~1")
  }

  function Decode(token: string): string {
    ReplaceAll(ReplaceAll(token, "~1", "/"), "~0", "~")
  }

  // ---------- one-pass reference (section 3 of RFC 6901) ----------

  function EscapeChar(c: char): string {
    if c == '~' then "~0" else if c == '/' then "~1" else [c]
  }

  function Escape(token: string): string {
    if token == "" then "" else EscapeChar(token[0]) + Escape(token[1..])
  }

  /** Every '~' starts "~0" or "~1", and there is no '/'. */
  predicate WellFormedToken(t: string) {
    t == ""
    || (t[0] == '~' && |t| > 1 && (t[1] == '0' || t[1] == '1') && WellFormedToken(t[2..]))
    || (t[0] != '~' && t[0] != '/' && WellFormedToken(t[1..]))
  }

  function Unescape(t: string): string
    requires WellFormedToken(t)
  {
    if t == "" then ""
    else if t[0] == '~' then [if t[1] == '0' then '~' else '/'] + Unescape(t[2..])
    else [t[0]] + Unescape(t[1..])
  }

  // ---------- the two passes compute it ----------

  function TildesEscaped(s: string): string {
    if s == "" then "" else (if s[0] == '~' then "~0" else [s[0]]) + TildesEscaped(s[1..])
  }

  lemma {:induction false} FirstEncodePass(s: string)
    ensures ReplaceAll(s, "~", "~0") == TildesEscaped(s)
  {
    if s != "" {
      FirstEncodePass(s[1..]);
      assert s[..1] == [s[0]];
    }
  }

  lemma SlashStep(head: string, tail: string)
    requires |head| == 1 || (|head| == 2 && '/' !in head)
    ensures ReplaceAll(head + tail, "/", "~1")
         == (if head == "/" then "~1" else head) + ReplaceAll(tail, "/", "~1")
  {
    var s := head + tail;
    assert s[..1] == head[..1] && s[1..] == head[1..] + tail;
    if |head| == 1 {
      assert s[1..] == tail && head == [head[0]];
    } else {
      assert s[1..][..1] == head[1..] && s[1..][1..] == tail;
      assert head == [head[0]] + [head[1]];
    }
  }

  lemma {:induction false} SecondEncodePass(s: string)
    ensures ReplaceAll(TildesEscaped(s), "/", "~1") == Escape(s)
  {
    if s != "" {
      SecondEncodePass(s[1..]);
      SlashStep(if s[0] == '~' then "~0" else [s[0]], TildesEscaped(s[1..]));
    }
  }

  /** Both Encode and EscapeJSONPointer escape each character on its own. */
  lemma EncodeIsEscape(s: string)
    ensures Encode(s) == Escape(s)
  {
    FirstEncodePass(s);
    SecondEncodePass(s);
  }

  /** A character other than '~' is passed over by both decoding passes. */
  lemma PassedOver(c: char, rest: string, pattern: string, replacement: string)
    requires |pattern| == 2 && pattern[0] == '~' && c != '~'
    ensures ReplaceAll([c] + rest, pattern, replacement) == [c] + ReplaceAll(rest, pattern, replacement)
  {
    var s := [c] + rest;
    assert s[0] == c && s[1..] == rest;
    if |s| >= 2 {
      assert s[..2][0] == c;
    }
  }

  lemma SlashDecoded(c: char, rest: string)
    ensures ReplaceAll(EscapeChar(c) + rest, "~1", "/")
         == (if c == '~' then "~0" else [c]) + ReplaceAll(rest, "~1", "/")
  {
    var s := EscapeChar(c) + rest;
    if c == '/' {
      assert s[..2] == "~1" && s[2..] == rest;
    } else if c == '~' {
      assert s[..2] == "~0" && s[1..] == ['0'] + rest;
      PassedOver('0', rest, "~1", "/");
      assert "~0" == ['~'] + ['0'];
    } else {
      PassedOver(c, rest, "~1", "/");
    }
  }

  lemma {:induction false} FirstDecodePass(s: string)
    ensures ReplaceAll(Escape(s), "~1", "/") == TildesEscaped(s)
  {
    if s != "" {
      FirstDecodePass(s[1..]);
      SlashDecoded(s[0], Escape(s[1..]));
    }
  }

  lemma {:induction false} SecondDecodePass(s: string)
    ensures ReplaceAll(TildesEscaped(s), "~0", "~") == s
  {
    if s != "" {
      SecondDecodePass(s[1..]);
      var e, rest := TildesEscaped(s), TildesEscaped(s[1..]);
      if s[0] == '~' {
        assert e[..2] == "~0" && e[2..] == rest;
      } else {
        assert e[0] == s[0] && e[1..] == rest;
      }
      assert [s[0]] + s[1..] == s;
    }
  }

  // ---------- round trips ----------

  lemma DecodeUndoesEncode(s: string)
    ensures Decode(Encode(s)) == s
  {
    EncodeIsEscape(s);
    FirstDecodePass(s);
    SecondDecodePass(s);
  }

  lemma {:induction false} EscapeUndoesUnescape(t: string)
    requires WellFormedToken(t)
    ensures Escape(Unescape(t)) == t
  {
    if t != "" {
      EscapeUndoesUnescape(if t[0] == '~' then t[2..] else t[1..]);
      var u := Unescape(t);
      assert u[1..] == Unescape(if t[0] == '~' then t[2..] else t[1..]);
    }
  }

  lemma {:induction false} EscapedIsWellFormed(s: string)
    ensures WellFormedToken(Escape(s)) && '/' !in Escape(s)
  {
    if s != "" {
      EscapedIsWellFormed(s[1..]);
      var e := Escape(s);
      assert e[|EscapeChar(s[0])|..] == Escape(s[1..]);
    }
  }

  lemma EncodedHasNoSlash(s: string)
    ensures '/' !in Encode(s)
  {
    EncodeIsEscape(s);
    EscapedIsWellFormed(s);
  }

  /** The other way round it is exact: decoding can be undone on well-formed tokens and on no others. */
  lemma EncodeUndoesDecodeExactly(t: string)
    ensures Encode(Decode(t)) == t <==> WellFormedToken(t)
    ensures WellFormedToken(t) ==> Decode(t) == Unescape(t)
  {
    if WellFormedToken(t) {
      EscapeUndoesUnescape(t);
      EncodeIsEscape(Unescape(t));
      DecodeUndoesEncode(Unescape(t));
    }
    if Encode(Decode(t)) == t {
      EncodeIsEscape(Decode(t));
      EscapedIsWellFormed(Decode(t));
    }
  }

  // ---------- paths ----------

  function DecodeAll(tokens: seq<string>): seq<string> {
    if tokens == [] then [] else [Decode(tokens[0])] + DecodeAll(tokens[1..])
  }

  /** The reference tokens of a pointer; a pointer is empty or starts with a slash. */
  function Tokens(path: string): Option<seq<string>> {
    if path == "" then Some([])
    else if path[0] == '/' then Some(DecodeAll(Split(path[1..], '/')))
    else None
  }

  /** A token without '~' decodes to itself. */
  lemma {:induction false} PlainToken(t: string)
    requires '~' !in t
    ensures Decode(t) == t
  {
    PlainPass(t, "~1", "/");
    PlainPass(t, "~0", "~");
  }

  lemma {:induction false} PlainPass(t: string, pattern: string, replacement: string)
    requires '~' !in t && pattern != "" && pattern[0] == '~'
    ensures ReplaceAll(t, pattern, replacement) == t
  {
    if |t| >= |pattern| {
      assert t[..|pattern|] != pattern by {
        assert t[..|pattern|][0] == t[0];
      }
      PlainPass(t[1..], pattern, replacement);
      assert [t[0]] + t[1..] == t;
    }
  }

  /** "/a/b" names the member b of a. */
  lemma TwoTokens(a: string, b: string)
    requires '~' !in a && '/' !in a && '~' !in b && '/' !in b
    ensures Tokens("/" + a + "/" + b) == Some([a, b])
  {
    var path := "/" + a + "/" + b;
    assert path[1..] == a + ['/'] + b;
    CutFirst(a, '/', b);
    assert Split(b, '/') == [b];
    assert Split(path[1..], '/') == [a, b];
    PlainToken(a);
    PlainToken(b);
    assert [a, b][1..] == [b] && [b][1..] == [];
    assert DecodeAll([b]) == [b];
  }

  lemma ThreeJoined(a: string, b: string, e: string)
    ensures ("/" + a + "/" + b + "/" + e)[1..] == Join([a, b, e], '/')
  {
    assert [a, b, e][1..] == [b, e] && [b, e][1..] == [e];
    assert Join([e], '/') == e;
    assert Join([b, e], '/') == b + "/" + e;
    assert Join([a, b, e], '/') == a + "/" + (b + "/" + e);
  }

  lemma DecodeThree(a: string, b: string, e: string)
    ensures DecodeAll([a, b, e]) == [Decode(a), Decode(b), Decode(e)]
  {
    assert [a, b, e][1..] == [b, e] && [b, e][1..] == [e] && [e][1..] == [];
    assert DecodeAll([]) == [];
    assert DecodeAll([e]) == [Decode(e)];
    assert DecodeAll([b, e]) == [Decode(b), Decode(e)];
  }

  /** "/a/b/" followed by an escaped key names that key, whatever characters it holds. */
  lemma KeyTokens(a: string, b: string, key: string)
    requires '~' !in a && '/' !in a && '~' !in b && '/' !in b
    ensures Tokens("/" + a + "/" + b + "/" + Encode(key)) == Some([a, b, key])
  {
    var e := Encode(key);
    EncodedHasNoSlash(key);
    SplitJoin([a, b, e], '/');
    ThreeJoined(a, b, e);
    DecodeThree(a, b, e);
    PlainToken(a);
    PlainToken(b);
    DecodeUndoesEncode(key);
  }
}
