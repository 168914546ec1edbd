// The value converters bindings use: icon code points written as XML
// character references turned into escapes, an unread count turned into
// a badge visibility, a flag turned into a visibility, and a pass-through
// colour converter.
module DataConverter {
  import opened Wrappers

  type String = seq<char>

  datatype Visibility = Visible | Collapsed

  /** A bound value: absent (null), a boolean, or anything else. */
  datatype Boxed = BoolValue(b: bool) | OtherValue(text: String)

  /** s.Replace(pattern, replacement): non-overlapping occurrences,
      scanned left to right. */
  function ReplaceAll(s: String, pattern: String, replacement: String): (r: String)
    requires |pattern| > 0
    decreases |s|
  {
    if |s| < |pattern| then s
    else if s[..|pattern|] == pattern then replacement + ReplaceAll(s[|pattern|..], pattern, replacement)
    else [s[0]] + ReplaceAll(s[1..], pattern, replacement)
  }

  /** Replacing a one-character pattern by nothing removes every copy of
      that character and keeps the others in order. */
  lemma {:induction false} RemoveChar(s: String, c: char)
    ensures c !in ReplaceAll(s, [c], [])
    ensures forall x :: x != c ==> multiset(ReplaceAll(s, [c], []))[x] == multiset(s)[x]
  {
    if |s| >= 1 {
      RemoveChar(s[1..], c);
      assert s == [s[0]] + s[1..];
    }
  }

  /** Text without the pattern's first character comes back unchanged. */
  lemma {:induction false} ReplaceAbsent(s: String, pattern: String, replacement: String)
    requires |pattern| > 0 && pattern[0] !in s
    ensures ReplaceAll(s, pattern, replacement) == s
  {
    if |s| >= |pattern| {
      assert s[..|pattern|][0] == s[0];
      ReplaceAbsent(s[1..], pattern, replacement);
    }
  }

  /** "&#x" becomes "\u" and every ';' is dropped; null or empty text is
      returned as it is. */
  function StringToUnicode(s: Option<String>): (r: Option<String>)
    ensures s.None? || s.value == [] ==> r == s
    ensures s.Some? && s.value != [] ==> r.Some? && ';' !in r.value
  {
    if s.None? || s.value == [] then s
    else
      RemoveChar(ReplaceAll(s.value, "&#x", "\\u"), ';');
      Some(ReplaceAll(ReplaceAll(s.value, "&#x", "\\u"), ";", ""))
  }

  lemma IconReplaced()
    ensures ReplaceAll("&#xe625;", "&#x", "\\u") == "\\ue625;"
  {
    var amp := "&#x";
    assert ReplaceAll("5;", amp, "\\u") == "5;";
    assert ReplaceAll("25;", amp, "\\u") == "25;" by {
      assert "25;"[..3][0] != amp[0];
      assert "25;"[1..] == "5;";
    }
    assert ReplaceAll("625;", amp, "\\u") == "625;" by {
      assert "625;"[..3][0] != amp[0];
      assert "625;"[1..] == "25;";
    }
    assert ReplaceAll("e625;", amp, "\\u") == "e625;" by {
      assert "e625;"[..3][0] != amp[0];
      assert "e625;"[1..] == "625;";
    }
    assert "&#xe625;"[..3] == amp;
    assert "&#xe625;"[3..] == "e625;";
  }

  lemma IconStripped()
    ensures ReplaceAll("\\ue625;", ";", "") == "\\ue625"
  {
    var semi := ";";
    var t := "\\ue625;";
    assert ReplaceAll(";", semi, "") == "" by {
      assert ";"[..1] == semi;
      assert ";"[1..] == "";
    }
    assert ReplaceAll(t[5..], semi, "") == "5" by {
      assert t[5..][..1][0] != semi[0];
      assert t[5..][1..] == ";";
    }
    assert ReplaceAll(t[4..], semi, "") == "25" by {
      assert t[4..][..1][0] != semi[0];
      assert t[4..][1..] == t[5..];
    }
    assert ReplaceAll(t[3..], semi, "") == "625" by {
      assert t[3..][..1][0] != semi[0];
      assert t[3..][1..] == t[4..];
    }
    assert ReplaceAll(t[2..], semi, "") == "e625" by {
      assert t[2..][..1][0] != semi[0];
      assert t[2..][1..] == t[3..];
    }
    assert ReplaceAll(t[1..], semi, "") == "ue625" by {
      assert t[1..][..1][0] != semi[0];
      assert t[1..][1..] == t[2..];
    }
    assert t[..1][0] != semi[0];
  }

  /** An icon font reference turns into its escape. */
  lemma IconReference()
    ensures StringToUnicode(Some("&#xe625;")) == Some("\\ue625")
  {
    IconReplaced();
    IconStripped();
  }

  /** Removing ';' after the replacement can itself form "&#x": the
      conversion is not a complete decoding of character references. */
  lemma SemicolonFormsReference()
    ensures StringToUnicode(Some("&#;x")) == Some("&#x")
  {
    var amp, semi := "&#x", ";";
    assert ReplaceAll(";x", amp, "\\u") == ";x";
    assert ReplaceAll("#;x", amp, "\\u") == "#;x" by {
      assert "#;x"[..3][0] != amp[0];
      assert "#;x"[1..] == ";x";
    }
    assert ReplaceAll("&#;x", amp, "\\u") == "&#;x" by {
      assert "&#;x"[..3][2] != amp[2];
      assert "&#;x"[1..] == "#;x";
    }
    assert ReplaceAll("x", semi, "") == "x" by {
      assert "x"[..1][0] != semi[0];
      assert "x"[1..] == "";
    }
    assert ReplaceAll(";x", semi, "") == "x" by {
      assert ";x"[..1] == semi;
      assert ";x"[1..] == "x";
    }
    assert ReplaceAll("#;x", semi, "") == "#x" by {
      assert "#;x"[..1][0] != semi[0];
      assert "#;x"[1..] == ";x";
    }
    assert ReplaceAll("&#;x", semi, "") == "&#x" by {
      assert "&#;x"[..1][0] != semi[0];
      assert "&#;x"[1..] == "#;x";
    }
  }

  /** The icon converter: a null value passes through; otherwise the
      references are turned into escapes and unescaped. The unescaping is a
      total parameter here; Regex.Unescape's exception on a malformed escape
      is not part of this model. */
  function StringToIconConvert(value: Option<String>, unescape: String -> String): (r: Option<String>)
    ensures value.None? <==> r.None?
    ensures value.Some? ==> r == Some(unescape(StringToUnicode(value).value))
  {
    if value.None? then None else Some(unescape(StringToUnicode(value).value))
  }

  /** The badge is shown only for a value whose text parses as a positive
      int; a null value is caught and hides it. */
  function NumberMessageTip(value: Option<String>, tryParse: String -> Option<int>): (r: Visibility)
    ensures r == Visible <==> value.Some? && tryParse(value.value).Some? && tryParse(value.value).value > 0
  {
    if value.None? then Collapsed
    else
      var n := tryParse(value.value);
      if n.Some? && n.value > 0 then Visible else Collapsed
  }

  /** true shows, false hides, and a null or non-boolean value (whose cast
      throws and is caught) hides. */
  function BoolToVisibility(value: Option<Boxed>): (r: Visibility)
    ensures r == Visible <==> value == Some(BoolValue(true))
  {
    if value.Some? && value.value.BoolValue? && value.value.b then Visible else Collapsed
  }

  /** The colour converter passes values through and converts nothing
      back. */
  function ForeColorConvert<T>(value: Option<T>): (r: Option<T>)
    ensures r == value
  {
    value
  }

  function ForeColorConvertBack<T>(value: Option<T>): (r: Option<T>)
    ensures r.None?
  {
    None
  }
}
