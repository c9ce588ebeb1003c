/**
 * The HTML tag stripper of the forum editor: the global regular-expression
 * replacement of /<\/?[^>]+(>|$)/ by the empty string.
 *
 * Read as a left-to-right scan, the expression matches at a position holding
 * '<' exactly when a next character exists and is not '>' (the optional '/'
 * is itself a character other than '>'); the greedy `[^>]+` then runs up to
 * the first later '>', which the match includes, or to the end of the string,
 * where `$` matches.  Every position where no match starts keeps its
 * character, and the scan resumes right after each deleted match.
 */
module Markup {

  /**
   * A tag starts at the head of `s`: '<' followed by a character other than
   * '>'.  Such a match always covers at least the '<' and one character of
   * its body.
   */
  predicate OpensTag(s: string): (b: bool)
    ensures b ==> |s| >= 2 && |AfterClose(s[1..])| <= |s| - 2
  {
    |s| >= 2 && s[0] == '<' && s[1] != '>'
  }

  /** What follows the first '>' of `t`, or nothing when `t` holds no '>'. */
  function AfterClose(t: string): (rest: string)
    ensures |rest| <= |t| && rest == t[|t| - |rest|..]
    ensures '>' !in t ==> rest == []
    ensures '>' in t ==> |rest| < |t| && t[|t| - |rest| - 1] == '>' && '>' !in t[..|t| - |rest| - 1]
    decreases |t|
  {
    if t == [] then []
    else if t[0] == '>' then t[1..]
    else
      var rest := AfterClose(t[1..]);
      assert '>' in t[1..] ==> t[..|t| - |rest| - 1] == [t[0]] + t[1..][..|t| - 1 - |rest| - 1];
      rest
  }

  /** The string with every tag match deleted. */
  function Strip(s: string): (r: string)
    ensures |r| <= |s|
    decreases |s|
  {
    if s == [] then []
    else if OpensTag(s) then Strip(AfterClose(s[1..]))
    else [s[0]] + Strip(s[1..])
  }

  /** No position of `s` starts a tag: each '<' is last or directly followed by '>'. */
  predicate Clean(s: string)
  {
    forall i :: 0 <= i < |s| && s[i] == '<' ==> i + 1 == |s| || s[i + 1] == '>'
  }

  // ---------------------------------------------------------------------
  // The three outcomes of the scan at the head of the string
  // ---------------------------------------------------------------------

  /** A character other than '<' is kept, and the scan continues after it. */
  lemma {:induction false} StripKeepsChar(c: char, rest: string)
    requires c != '<'
    ensures Strip([c] + rest) == [c] + Strip(rest)
  {
  }

  /** A '<' with nothing after it, or with '>' right after it, is kept. */
  lemma {:induction false} StripKeepsBareAngle(rest: string)
    requires rest == [] || rest[0] == '>'
    ensures Strip(['<'] + rest) == ['<'] + Strip(rest)
  {
  }

  /** Skipping to the first '>' passes over any text free of '>'. */
  lemma {:induction false} AfterCloseSkips(body: string, tail: string)
    requires '>' !in body
    ensures AfterClose(body + tail) == AfterClose(tail)
    decreases |body|
  {
    if body != [] {
      assert (body + tail)[0] == body[0];
      assert (body + tail)[1..] == body[1..] + tail;
      AfterCloseSkips(body[1..], tail);
    } else {
      assert body + tail == tail;
    }
  }

  /** A closed tag '<' body '>' is deleted whole, and the scan resumes after its '>'. */
  lemma {:induction false} StripDropsClosedTag(body: string, rest: string)
    requires body != [] && '>' !in body
    ensures Strip(['<'] + body + ['>'] + rest) == Strip(rest)
  {
    var s := ['<'] + body + ['>'] + rest;
    assert s[1] == body[0];
    assert s[1..] == body + (['>'] + rest);
    AfterCloseSkips(body, ['>'] + rest);
    assert (['>'] + rest)[1..] == rest;
  }

  /** An unclosed tag '<' body runs to the end of the string and is deleted. */
  lemma {:induction false} StripDropsUnclosedTag(body: string)
    requires body != [] && '>' !in body
    ensures Strip(['<'] + body) == []
  {
  }

  // ---------------------------------------------------------------------
  // What stripping leaves behind
  // ---------------------------------------------------------------------

  /** Stripping leaves no tag start behind. */
  lemma {:induction false} StripIsClean(s: string)
    ensures Clean(Strip(s))
    decreases |s|
  {
    if s == [] {
    } else if OpensTag(s) {
      StripIsClean(AfterClose(s[1..]));
    } else {
      var tail := Strip(s[1..]);
      StripIsClean(s[1..]);
      var r := [s[0]] + tail;
      if s[0] == '<' && |s| >= 2 {
        assert s[1] == '>';
        StripKeepsChar('>', s[2..]);
        assert s[1..] == ['>'] + s[2..];
        assert tail[0] == '>';
      }
      forall i | 0 <= i < |r| && r[i] == '<'
        ensures i + 1 == |r| || r[i + 1] == '>'
      {
        if i > 0 {
          assert r[i] == tail[i - 1];
        }
      }
    }
  }

  /** Every '<' of `s` opens a tag: a next character exists and is not '>'. */
  predicate WellTagged(s: string)
  {
    forall i :: 0 <= i < |s| && s[i] == '<' ==> i + 1 < |s| && s[i + 1] != '>'
  }

  /** When every '<' opens a tag, stripping leaves no '<' at all. */
  lemma {:induction false} StripRemovesEveryAngle(s: string)
    ensures WellTagged(s) ==> '<' !in Strip(s)
    decreases |s|
  {
    if s != [] && WellTagged(s) {
      if OpensTag(s) {
        var rest := AfterClose(s[1..]);
        var k := |s| - |rest|;
        assert WellTagged(rest) by {
          forall j | 0 <= j < |rest| && rest[j] == '<'
            ensures j + 1 < |rest| && rest[j + 1] != '>'
          {
            assert rest[j] == s[k + j];
            if j + 1 < |rest| {
              assert rest[j + 1] == s[k + j + 1];
            }
          }
        }
        StripRemovesEveryAngle(rest);
      } else {
        assert s[0] != '<';
        assert WellTagged(s[1..]) by {
          forall j | 0 <= j < |s[1..]| && s[1..][j] == '<'
            ensures j + 1 < |s[1..]| && s[1..][j + 1] != '>'
          {
            assert s[j + 1] == '<';
          }
        }
        StripRemovesEveryAngle(s[1..]);
      }
    }
  }

  /** A string with no tag start is left as it is. */
  lemma {:induction false} StripCleanIsIdentity(s: string)
    requires Clean(s)
    ensures Strip(s) == s
    decreases |s|
  {
    if s != [] {
      assert !OpensTag(s);
      assert Clean(s[1..]) by {
        forall i | 0 <= i < |s[1..]| && s[1..][i] == '<'
          ensures i + 1 == |s[1..]| || s[1..][i + 1] == '>'
        {
          assert s[i + 1] == '<';
        }
      }
      StripCleanIsIdentity(s[1..]);
    }
  }

  /** Text without any '<' passes through unchanged. */
  lemma {:induction false} StripWithoutAngleIsIdentity(s: string)
    ensures '<' !in s ==> Strip(s) == s
  {
    if '<' !in s {
      StripCleanIsIdentity(s);
    }
  }

  /** Stripping twice is stripping once. */
  lemma {:induction false} StripIdempotent(s: string)
    ensures Strip(Strip(s)) == Strip(s)
  {
    StripIsClean(s);
    StripCleanIsIdentity(Strip(s));
  }

  /** Text free of '<' at the head of a string is kept as it is. */
  lemma {:induction false} StripKeepsPlainPrefix(a: string, b: string)
    requires '<' !in a
    ensures Strip(a + b) == a + Strip(b)
    decreases |a|
  {
    if a == [] {
      assert a + b == b;
    } else {
      assert a + b == [a[0]] + (a[1..] + b);
      assert a[0] != '<' && '<' !in a[1..];
      StripKeepsChar(a[0], a[1..] + b);
      StripKeepsPlainPrefix(a[1..], b);
      assert [a[0]] + (a[1..] + Strip(b)) == a + Strip(b);
    }
  }

  /** Text without '<' wrapped in an element <name>text</name> comes out as the bare text. */
  lemma {:induction false} StripElement(name: string, text: string)
    requires name != [] && '>' !in name && '<' !in text
    ensures Strip(Element(name, text)) == text
  {
    var close := ['<'] + (['/'] + name) + ['>'];
    assert ['<'] + name + ['>'] + text + ['<', '/'] + name + ['>'] == ['<'] + name + ['>'] + (text + close);
    StripDropsClosedTag(name, text + close);
    StripKeepsPlainPrefix(text, close);
    assert close == ['<'] + (['/'] + name) + ['>'] + [];
    StripDropsClosedTag(['/'] + name, []);
    assert text + [] == text;
  }

  /** The element <name>text</name>. */
  function Element(name: string, text: string): string
  {
    ['<'] + name + ['>'] + text + ['<', '/'] + name + ['>']
  }

  /** A marked-up title and description as the forum service returns them. */
  lemma StripExampleParagraph()
    ensures Strip("<p>Calc</p>") == "Calc"
  {
    ParagraphIsElement();
    StripElement("p", "Calc");
  }

  lemma ParagraphIsElement()
    ensures "<p>Calc</p>" == Element("p", "Calc")
  {
  }

  lemma StripExampleBold()
    ensures Strip("<b>Intro</b>") == "Intro"
  {
    BoldIsElement();
    StripElement("b", "Intro");
  }

  lemma BoldIsElement()
    ensures "<b>Intro</b>" == Element("b", "Intro")
  {
  }

  /** A '<' that starts an unclosed tag swallows the rest of the text. */
  lemma StripExampleUnclosed()
    ensures Strip("a<b") == "a"
  {
  }

  /** An empty tag "<>" is not a match and stays. */
  lemma StripExampleEmptyTag()
    ensures Strip("<>") == "<>"
  {
  }
}
