/** Underscore's escape and unescape: one left-to-right replacement pass each, with a table and
    its inverse (public/bower_components/underscore/underscore.js). */
module HtmlEscape {
  import opened Basics

  function Entity(c: char): Option<string> {
    match c
    case '&' => Some("&amp;")
    case '<' => Some("&lt;")
    case '>' => Some("&gt;")
    case '"' => Some("&quot;")
    case '\'' => Some("&#x27;")
    case _ => None
  }

  /** The inverted table, tried as the alternatives of one regular expression. */
  function EntityAt(s: string): Option<(char, nat)> {
    if "&amp;" <= s then Some(('&', 5))
    else if "&lt;" <= s then Some(('<', 4))
    else if "&gt;" <= s then Some(('>', 4))
    else if "&quot;" <= s then Some(('"', 6))
    else if "&#x27;" <= s then Some(('\'', 6))
    else None
  }

  function Escape(s: string): string {
    if s == "" then ""
    else (if Entity(s[0]).Some? then Entity(s[0]).value else [s[0]]) + Escape(s[1..])
  }

  function Unescape(s: string): string
    decreases |s|
  {
    if s == "" then ""
    else if EntityAt(s).Some? then [EntityAt(s).value.0] + Unescape(s[EntityAt(s).value.1..])
    else [s[0]] + Unescape(s[1..])
  }

  lemma EntityAtEntity(c: char, rest: string)
    requires Entity(c).Some?
    ensures EntityAt(Entity(c).value + rest) == Some((c, |Entity(c).value|))
  {
    var s := Entity(c).value + rest;
    assert Entity(c).value <= s;
    assert s[1] == Entity(c).value[1] && s[2] == Entity(c).value[2];
  }

  /** unescape undoes escape on every string. */
  lemma {:induction false} UnescapeEscape(s: string)
    ensures Unescape(Escape(s)) == s
  {
    if s != "" {
      UnescapeEscape(s[1..]);
      var rest := Escape(s[1..]);
      if Entity(s[0]).Some? {
        EntityAtEntity(s[0], rest);
        assert (Entity(s[0]).value + rest)[|Entity(s[0]).value|..] == rest;
      } else {
        assert ([s[0]] + rest)[1..] == rest && ([s[0]] + rest)[0] == s[0];
      }
    }
  }

  /** A string in which special characters occur only as the start of a table entity. */
  predicate WellEscaped(s: string)
    decreases |s|
  {
    if s == "" then true
    else if EntityAt(s).Some? then WellEscaped(s[EntityAt(s).value.1..])
    else Entity(s[0]).None? && WellEscaped(s[1..])
  }

  lemma EntityAtHead(s: string)
    requires EntityAt(s).Some?
    ensures Entity(EntityAt(s).value.0).Some?
    ensures s == Entity(EntityAt(s).value.0).value + s[EntityAt(s).value.1..]
  {
  }

  lemma {:induction false} EscapeIsWellEscaped(s: string)
    ensures WellEscaped(Escape(s))
  {
    if s != "" {
      EscapeIsWellEscaped(s[1..]);
      var rest := Escape(s[1..]);
      if Entity(s[0]).Some? {
        EntityAtEntity(s[0], rest);
        assert (Entity(s[0]).value + rest)[|Entity(s[0]).value|..] == rest;
      } else {
        assert ([s[0]] + rest)[1..] == rest && ([s[0]] + rest)[0] == s[0];
      }
    }
  }

  lemma {:induction false} EscapeUnescape(s: string)
    requires WellEscaped(s)
    ensures Escape(Unescape(s)) == s
    decreases |s|
  {
    if s != "" {
      if EntityAt(s).Some? {
        EntityAtHead(s);
        var c, rest := EntityAt(s).value.0, s[EntityAt(s).value.1..];
        EscapeUnescape(rest);
        assert ([c] + Unescape(rest))[1..] == Unescape(rest);
      } else {
        EscapeUnescape(s[1..]);
        assert ([s[0]] + Unescape(s[1..]))[1..] == Unescape(s[1..]);
      }
    }
  }

  /** escape undoes unescape exactly on the well-escaped strings, which are exactly escape's outputs. */
  lemma EscapeUnescapeIff(s: string)
    ensures Escape(Unescape(s)) == s <==> WellEscaped(s)
  {
    EscapeIsWellEscaped(Unescape(s));
    if WellEscaped(s) {
      EscapeUnescape(s);
    }
  }

  // ------------------------------------------------------------------ the table

  /** Which character becomes which entity. */
  lemma EscapeTable()
    ensures Escape("&") == "&amp;" && Escape("<") == "&lt;" && Escape(">") == "&gt;"
    ensures Escape("\"") == "&quot;" && Escape("'") == "&#x27;"
    ensures forall c :: c !in "&<>\"'" ==> Escape([c]) == [c]
  {
    forall c: char
      ensures Escape([c]) == if Entity(c).Some? then Entity(c).value else [c]
    {
      assert [c][1..] == "" && Escape("") == "";
    }
    assert ['&'] == "&" && ['<'] == "<" && ['>'] == ">" && ['"'] == "\"" && ['\''] == "'";
  }

  /** Character by character. */
  lemma {:induction false} EscapeConcat(s: string, t: string)
    ensures Escape(s + t) == Escape(s) + Escape(t)
  {
    if s == "" {
      assert s + t == t;
    } else {
      var head := if Entity(s[0]).Some? then Entity(s[0]).value else [s[0]];
      EscapeConcat(s[1..], t);
      assert (s + t)[0] == s[0] && (s + t)[1..] == s[1..] + t;
      Regroup(head, Escape(s[1..]), Escape(t));
    }
  }

  /** What comes out holds no character that could end an attribute or open a tag. */
  lemma {:induction false} EscapedIsInert(s: string)
    ensures forall c :: c in Escape(s) ==> c !in "<>\"'"
  {
    if s != "" {
      EscapedIsInert(s[1..]);
    }
  }
}
