/**
 * _sanitize_filename, which both the prompt generator and the article scaffold
 * generator define identically: each of nine characters that file systems
 * refuse is replaced by '_', one character after the other, and the result is
 * cut to its first 100 characters.
 */
module Filenames {
  import opened Text

  /** The characters replaced, in the order the loop visits them. */
  const InvalidChars: seq<char> := ['/', '\\', ':', '*', '?', '"', '<', '>', '|']

  const MaxFilenameLength: nat := 100

  /** `s` with every character of `cs` turned into '_'. */
  function Masked(s: string, cs: seq<char>): (r: string)
    ensures |r| == |s|
    ensures forall k :: 0 <= k < |s| ==> r[k] == (if s[k] in cs then '_' else s[k])
  {
    seq(|s|, k requires 0 <= k < |s| => if s[k] in cs then '_' else s[k])
  }

  /** What _sanitize_filename returns. */
  function Sanitized(s: string): (r: string)
    ensures |r| <= MaxFilenameLength
    ensures |r| == if |s| <= MaxFilenameLength then |s| else MaxFilenameLength
  {
    var m := Masked(s, InvalidChars);
    if |m| > MaxFilenameLength then m[..MaxFilenameLength] else m
  }

  /**
   * A sanitised name holds none of the nine characters, and each of its
   * characters is the original one or the '_' that replaced one of them.
   */
  lemma SanitizedChars(s: string)
    ensures forall k :: 0 <= k < |Sanitized(s)| ==> Sanitized(s)[k] !in InvalidChars
    ensures forall k :: 0 <= k < |Sanitized(s)| ==>
      Sanitized(s)[k] == s[k] || (s[k] in InvalidChars && Sanitized(s)[k] == '_')
  {
  }

  /** str.replace of a one-character pattern by one character is a per-position substitution. */
  lemma {:induction false} ReplaceOneChar(s: string, c: char, x: char)
    ensures Replace(s, [c], [x]) == seq(|s|, k requires 0 <= k < |s| => if s[k] == c then x else s[k])
    decreases |s|
  {
    if |s| >= 1 {
      ReplaceOneChar(s[1..], c, x);
      if s[..1] == [c] {
        assert s[0] == c;
      } else {
        assert s[0] != c by {
          assert s[..1] == [s[0]];
        }
      }
    }
  }

  /** _sanitize_filename: the replacement loop over the nine characters, then the cut to 100. */
  method SanitizeFilename(filename: string) returns (r: string)
    ensures r == Sanitized(filename)
  {
    r := filename;
    for i := 0 to |InvalidChars|
      invariant r == Masked(filename, InvalidChars[..i])
    {
      var c := InvalidChars[i];
      ReplaceOneChar(r, c, '_');
      r := Replace(r, [c], "_");
      assert forall k :: 0 <= k < |filename| ==>
        (filename[k] in InvalidChars[..i + 1] <==> filename[k] in InvalidChars[..i] || filename[k] == c) by {
        assert InvalidChars[..i + 1] == InvalidChars[..i] + [c];
      }
    }
    assert InvalidChars[..|InvalidChars|] == InvalidChars;
    if |r| > MaxFilenameLength {
      r := r[..MaxFilenameLength];
    }
  }

  /** A name is left exactly as it is if and only if it is short enough and holds none of the nine characters. */
  lemma SanitizedFixedPoint(s: string)
    ensures Sanitized(s) == s <==>
      |s| <= MaxFilenameLength && forall k :: 0 <= k < |s| ==> s[k] !in InvalidChars
  {
    if |s| <= MaxFilenameLength && forall k :: 0 <= k < |s| ==> s[k] !in InvalidChars {
      assert Masked(s, InvalidChars) == s;
    }
  }

  /** Sanitising twice changes nothing more. */
  lemma SanitizedIdempotent(s: string)
    ensures Sanitized(Sanitized(s)) == Sanitized(s)
  {
    SanitizedChars(s);
    SanitizedFixedPoint(Sanitized(s));
  }
}
