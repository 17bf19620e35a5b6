/** `s2b` from model.py: the command-line string-to-boolean coercion. */
module Flags {
  import opened PyStrings

  /** The four lower-case words that `s2b` reads as true. */
  const TRUTHY_WORDS: set<string> := {"true", "yes", "y", "1"}

  /**
   * Every spelling `s2b` accepts, written out: each truthy word with any choice
   * of capital letters. An independent description of the accepted set.
   */
  const TRUTHY_SPELLINGS: set<string> := {
      "true", "truE", "trUe", "trUE", "tRue", "tRuE", "tRUe", "tRUE", "True", "TruE", "TrUe", "TrUE", "TRue", "TRuE", "TRUe", "TRUE",
      "yes", "yeS", "yEs", "yES", "Yes", "YeS", "YEs", "YES",
      "y", "Y",
      "1"
    }

  /** `s2b(s)`: lower-case `s`, then test it against the four truthy words. */
  function S2b(s: string): bool {
    Lower(s) in TRUTHY_WORDS
  }

  /** A lower-case letter comes out of LowerChar only from itself or its capital. */
  lemma LowerCharFrom(ch: char, x: char)
    requires 'a' <= x <= 'z' && LowerChar(ch) == x
    ensures ch == x || ch as int == x as int - 32
  {
  }

  /** Lower written out character by character for the lengths of the truthy words. */
  lemma LowerShort(s: string)
    ensures |s| == 1 ==> Lower(s) == [LowerChar(s[0])]
    ensures |s| == 3 ==> Lower(s) == [LowerChar(s[0]), LowerChar(s[1]), LowerChar(s[2])]
    ensures |s| == 4 ==> Lower(s) == [LowerChar(s[0]), LowerChar(s[1]), LowerChar(s[2]), LowerChar(s[3])]
  {
  }

  /** Each listed spelling lower-cases to a truthy word. */
  lemma SpellingsAreTruthy()
    ensures forall w :: w in TRUTHY_SPELLINGS ==> Lower(w) in TRUTHY_WORDS
  {
    forall w | w in TRUTHY_SPELLINGS
      ensures Lower(w) in TRUTHY_WORDS
    {
      LowerShort(w);
    }
  }

  /** Exactly the listed spellings are read as true; everything else, the empty string included, is false. */
  lemma S2bSpellings(s: string)
    ensures S2b(s) <==> s in TRUTHY_SPELLINGS
  {
    var l := Lower(s);
    LowerShort(s);
    if l == "true" {
      LowerCharFrom(s[0], 't');
      LowerCharFrom(s[1], 'r');
      LowerCharFrom(s[2], 'u');
      LowerCharFrom(s[3], 'e');
      assert s == [s[0], s[1], s[2], s[3]];
    } else if l == "yes" {
      LowerCharFrom(s[0], 'y');
      LowerCharFrom(s[1], 'e');
      LowerCharFrom(s[2], 's');
      assert s == [s[0], s[1], s[2]];
    } else if l == "y" {
      LowerCharFrom(s[0], 'y');
      assert s == [s[0]];
    } else if l == "1" {
      assert s == [s[0]];
    } else {
      SpellingsAreTruthy();
    }
  }

  /** Capitalisation never matters: `s2b(s) == s2b(s.lower())`. */
  lemma S2bCaseInsensitive(s: string)
    ensures S2b(Lower(s)) == S2b(s)
  {
    LowerIdempotent(s);
  }

  /** The default "true" and its capitalised forms are true; "", "no", "false", "0" and "t" are false. */
  lemma S2bExamples()
    ensures S2b("true") && S2b("TRUE") && S2b("Yes") && S2b("Y") && S2b("1")
    ensures !S2b("") && !S2b("no") && !S2b("false") && !S2b("0") && !S2b("t")
  {
    S2bSpellings("true");
    S2bSpellings("TRUE");
    S2bSpellings("Yes");
    S2bSpellings("Y");
    S2bSpellings("1");
    S2bSpellings("");
    S2bSpellings("no");
    S2bSpellings("false");
    S2bSpellings("0");
    S2bSpellings("t");
  }
}
