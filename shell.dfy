/**
 * `shlex.quote` and the part of POSIX shell word reading that its output uses:
 * unquoted safe characters, single-quoted text and double-quoted text without
 * expansions.
 */
module Shell {
  import opened Wrappers

  /** The characters `shlex.quote` leaves unquoted: ASCII letters, digits and `_@%+=:,./-`. */
  predicate SafeChar(c: char) {
    ('a' <= c <= 'z') || ('A' <= c <= 'Z') || ('0' <= c <= '9') || c in "_@%+=:,./-"
  }

  predicate AllSafe(s: string) {
    forall i :: 0 <= i < |s| ==> SafeChar(s[i])
  }

  /** Every `'` replaced by `'"'"'` (close the quote, a double-quoted `'`, reopen). */
  function Escape(s: string): string
    decreases |s|
  {
    if s == "" then "" else (if s[0] == '\'' then "'\"'\"'" else [s[0]]) + Escape(s[1..])
  }

  /** `shlex.quote(s)`: `''` for the empty string, `s` when every character is safe, else single-quoted. */
  function Quote(s: string): (r: string)
    ensures r != ""
  {
    if s == "" then "''"
    else if AllSafe(s) then s
    else "'" + Escape(s) + "'"
  }

  /** The text up to the first `close`, and what follows that `close`. */
  function Closing(t: string, close: char): (r: Option<(string, string)>)
    ensures r.Some? ==> |r.value.1| < |t|
    decreases |t|
  {
    if t == "" then None
    else if t[0] == close then Some(("", t[1..]))
    else
      match Closing(t[1..], close)
      case None => None
      case Some(pair) => Some(([t[0]] + pair.0, pair.1))
  }

  /** Double-quoted text in which the shell expands nothing. */
  predicate NoExpansion(s: string) {
    '$' !in s && '`' !in s && '\\' !in s
  }

  /**
   * The value a POSIX shell gives one word `t`, when `t` is made of safe
   * characters, single-quoted parts and double-quoted parts without
   * expansions; None for any other word.
   */
  function Unquote(t: string): Option<string>
    decreases |t|
  {
    if t == "" then Some("")
    else if t[0] == '\'' || t[0] == '"' then
      match Closing(t[1..], t[0])
      case None => None
      case Some(pair) =>
        if t[0] == '"' && !NoExpansion(pair.0) then None
        else
          match Unquote(pair.1)
          case None => None
          case Some(u) => Some(pair.0 + u)
    else if SafeChar(t[0]) then
      match Unquote(t[1..])
      case None => None
      case Some(u) => Some([t[0]] + u)
    else None
  }

  lemma {:induction false} UnquoteSafe(s: string)
    requires AllSafe(s)
    ensures Unquote(s) == Some(s)
    decreases |s|
  {
    if s != "" {
      assert SafeChar(s[0]);
      assert AllSafe(s[1..]) by {
        forall i | 0 <= i < |s[1..]| ensures SafeChar(s[1..][i]) { assert s[1..][i] == s[i + 1]; }
      }
      UnquoteSafe(s[1..]);
      assert [s[0]] + s[1..] == s;
    }
  }

  lemma {:induction false} ClosingFirst(a: string, close: char, rest: string)
    requires close !in a
    ensures Closing(a + [close] + rest, close) == Some((a, rest))
    decreases |a|
  {
    if a == [] {
      assert a + [close] + rest == [close] + rest;
      assert ([close] + rest)[1..] == rest;
    } else {
      var t := a + [close] + rest;
      assert t[0] == a[0];
      assert t[1..] == a[1..] + [close] + rest;
      assert close !in a[1..] by { assert forall c :: c in a[1..] ==> c in a; }
      ClosingFirst(a[1..], close, rest);
      assert [a[0]] + a[1..] == a;
    }
  }

  lemma {:induction false} EscapeAppend(a: string, b: string)
    ensures Escape(a + b) == Escape(a) + Escape(b)
    decreases |a|
  {
    if a == "" {
      assert a + b == b;
    } else {
      assert (a + b)[0] == a[0];
      assert (a + b)[1..] == a[1..] + b;
      EscapeAppend(a[1..], b);
    }
  }

  lemma {:induction false} EscapeNoQuote(a: string)
    requires '\'' !in a
    ensures Escape(a) == a
    decreases |a|
  {
    if a != "" {
      assert '\'' !in a[1..] by { assert forall c :: c in a[1..] ==> c in a; }
      EscapeNoQuote(a[1..]);
      assert [a[0]] + a[1..] == a;
    }
  }

  /** The position of the first `c` in `s`. */
  function IndexOf(s: string, c: char): (i: nat)
    requires c in s
    ensures i < |s| && s[i] == c
    ensures forall j :: 0 <= j < i ==> s[j] != c
    decreases |s|
  {
    if s[0] == c then 0 else 1 + IndexOf(s[1..], c)
  }

  /** A single-quoted part without `'` contributes its text. */
  lemma UnquoteSingle(a: string, rest: string)
    requires '\'' !in a
    ensures Unquote("'" + a + "'" + rest) ==
      (match Unquote(rest) case None => None case Some(u) => Some(a + u))
  {
    var t := "'" + a + "'" + rest;
    assert t[0] == '\'';
    assert t[1..] == a + ['\''] + rest;
    ClosingFirst(a, '\'', rest);
  }

  /** A double-quoted `'` contributes `'`. */
  lemma UnquoteDoubleQuote(rest: string)
    ensures Unquote("\"'\"" + rest) ==
      (match Unquote(rest) case None => None case Some(u) => Some("'" + u))
  {
    var t := "\"'\"" + rest;
    assert t[0] == '"';
    assert t[1..] == "'" + ['"'] + rest;
    ClosingFirst("'", '"', rest);
    assert NoExpansion("'");
  }

  /** Escaping up to the first `'`. */
  lemma EscapeAtQuote(a: string, b: string)
    requires '\'' !in a
    ensures Escape(a + ("'" + b)) == a + ("'\"'\"'" + Escape(b))
  {
    EscapeAppend(a, "'" + b);
    EscapeAppend("'", b);
    EscapeNoQuote(a);
    assert Escape("'") == "'\"'\"'";
  }

  /** The quoted escape of `a'b`, regrouped as the single-quoted `a`, a double-quoted `'` and the quoted rest. */
  lemma QuotedAtQuote(a: string, e: string)
    ensures "'" + (a + ("'\"'\"'" + e)) + "'" == "'" + a + "'" + ("\"'\"" + ("'" + e + "'"))
  {
    var q: string := "'";
    var dq: string := "\"'\"";
    assert "'\"'\"'" == q + dq + q;
    calc {
      q + (a + (q + dq + q + e)) + q;
      q + a + q + (dq + (q + e + q));
    }
  }

  /** A single-quoted escaped string reads back as the string. */
  lemma {:induction false} QuotedRoundTrip(s: string)
    ensures Unquote("'" + Escape(s) + "'") == Some(s)
    decreases |s|
  {
    if '\'' !in s {
      EscapeNoQuote(s);
      UnquoteSingle(s, "");
      assert "'" + s + "'" == "'" + s + "'" + "";
      assert Unquote("") == Some("");
      assert s + "" == s;
    } else {
      var i := IndexOf(s, '\'');
      var a, b := s[..i], s[i + 1..];
      assert s == a + ("'" + b);
      assert '\'' !in a by {
        forall c | c in a ensures c != '\'' {
          var j :| 0 <= j < |a| && a[j] == c;
          assert s[j] == c;
        }
      }
      EscapeAtQuote(a, b);
      var y := "'" + Escape(b) + "'";
      var x := "\"'\"" + y;
      QuotedAtQuote(a, Escape(b));
      QuotedRoundTrip(b);
      UnquoteDoubleQuote(y);
      UnquoteSingle(a, x);
    }
  }

  /** What `shlex.quote` promises: the shell reads the quoted word back as `s`. */
  lemma QuoteRoundTrip(s: string)
    ensures Unquote(Quote(s)) == Some(s)
  {
    if s == "" {
      var t := Quote(s);
      assert t == "''";
      assert t[0] == '\'' && t[1..] == "'";
      var rest: string := t[1..];
      assert rest[0] == '\'' && rest[1..] == "";
      assert Closing(rest, '\'') == Some(("", ""));
      assert Unquote("") == Some("");
      assert Unquote(t) == Some("" + "");
      assert "" + "" == s;
      assert Unquote(t) == Some(s);
    } else if AllSafe(s) {
      UnquoteSafe(s);
    } else {
      QuotedRoundTrip(s);
    }
  }

  lemma {:induction false} EscapeNoNewline(s: string)
    requires '\n' !in s
    ensures '\n' !in Escape(s)
    decreases |s|
  {
    if s != "" {
      assert '\n' !in s[1..] by { assert forall c :: c in s[1..] ==> c in s; }
      EscapeNoNewline(s[1..]);
    }
  }

  /** Quoting adds no line break. */
  lemma QuoteNoNewline(s: string)
    requires '\n' !in s
    ensures '\n' !in Quote(s)
  {
    EscapeNoNewline(s);
  }
}
