/** The computations of `Output` in src/output/mod.rs: masking an API key for
    display, and reading a yes/no answer. Printing and reading the terminal are not
    modelled; the answer line is a parameter. */
module Output {
  import opened Strings
  import ProjectConfig

  /** The characters of a key that are shown. */
  const ShownPrefix := 12

  /** `mask_api_key`: a key of at most twelve characters is all `*`; a longer one
      keeps its first twelve characters and has `*` for the rest. */
  function MaskApiKey(key: string): (r: string)
    ensures |r| == |key|
    ensures forall i :: 0 <= i < |r| ==> r[i] == (if |key| > ShownPrefix && i < ShownPrefix then key[i] else '*')
  {
    if |key| <= ShownPrefix then Repeat('*', |key|)
    else key[..ShownPrefix] + Repeat('*', |key| - ShownPrefix)
  }

  /** Nothing past the first twelve characters shows: keys of one length that agree
      on those characters are masked alike. */
  lemma MaskHidesSecret(key1: string, key2: string)
    requires |key1| == |key2|
    requires |key1| > ShownPrefix ==> key1[..ShownPrefix] == key2[..ShownPrefix]
    ensures MaskApiKey(key1) == MaskApiKey(key2)
  {
    var m1, m2 := MaskApiKey(key1), MaskApiKey(key2);
    forall i | 0 <= i < |m1| ensures m1[i] == m2[i] {
      if |key1| > ShownPrefix && i < ShownPrefix {
        assert key1[..ShownPrefix][i] == key2[..ShownPrefix][i];
      }
    }
  }

  /** Masking a masked key changes nothing. */
  lemma MaskIdempotent(key: string)
    ensures MaskApiKey(MaskApiKey(key)) == MaskApiKey(key)
  {
    var m := MaskApiKey(key);
    var mm := MaskApiKey(m);
    forall i | 0 <= i < |m| ensures mm[i] == m[i] {
    }
  }

  /** A valid key longer than twelve characters still shows whether it is a test key
      or a production key. */
  lemma MaskShowsKind(key: string)
    requires ProjectConfig.ValidApiKey(key) && |key| > ShownPrefix
    ensures ProjectConfig.ValidApiKey(MaskApiKey(key))
    ensures StartsWith(MaskApiKey(key), "pg_sk_test_") <==> StartsWith(key, "pg_sk_test_")
  {
    var m := MaskApiKey(key);
    assert m[..11] == key[..11];
  }

  /** The hint after the prompt: the default answer is in capitals. */
  function Hint(default: bool): (s: string)
    ensures |s| == 3 && s[1] == '/'
    ensures default <==> s[0] == 'Y'
    ensures !default <==> s[2] == 'N'
  {
    if default then "Y/n" else "y/N"
  }

  /** The answer-decoding of `confirm`: the line read, trimmed and lower-cased; empty
      gives the default, otherwise only `y` and `yes` mean yes. */
  function ConfirmAnswer(line: string, default: bool): (r: bool)
    ensures Trim(line) == "" ==> r == default
    ensures Trim(line) != "" ==> (r <==> EqIgnoreAsciiCase(Trim(line), "y") || EqIgnoreAsciiCase(Trim(line), "yes"))
  {
    var answer := ToLower(Trim(line));
    if answer == "" then default else answer == "y" || answer == "yes"
  }

  /** A line of only whitespace, such as the bare newline of pressing Enter, gives the
      default. */
  lemma BlankGivesDefault(line: string, default: bool)
    requires forall i :: 0 <= i < |line| ==> IsWhitespace(line[i])
    ensures ConfirmAnswer(line, default) == default
  {
  }

  /** A word between whitespace is read as that word. */
  lemma TrimAround(pre: string, word: string, post: string)
    requires forall i :: 0 <= i < |pre| ==> IsWhitespace(pre[i])
    requires forall i :: 0 <= i < |post| ==> IsWhitespace(post[i])
    requires word != [] && !IsWhitespace(word[0]) && !IsWhitespace(word[|word| - 1])
    ensures Trim(pre + word + post) == word
  {
    assert pre + word + post == pre + (word + post);
    LeadingWhitespaceTrimmed(pre, word + post);
    TrailingWhitespaceTrimmed(word, post);
  }

  lemma LeadingWhitespaceTrimmed(pre: string, rest: string)
    requires forall i :: 0 <= i < |pre| ==> IsWhitespace(pre[i])
    requires rest != [] && !IsWhitespace(rest[0])
    ensures TrimStart(pre + rest) == rest
  {
    var s := pre + rest;
    var t := TrimStart(s);
    var k := |s| - |t|;
    assert !IsWhitespace(s[|pre|]);
    assert forall i :: 0 <= i < |pre| ==> IsWhitespace(s[i]) by {
      forall i | 0 <= i < |pre| ensures IsWhitespace(s[i]) { assert s[i] == pre[i]; }
    }
    assert t[0] == s[k];
    assert k == |pre|;
  }

  lemma TrailingWhitespaceTrimmed(word: string, post: string)
    requires forall i :: 0 <= i < |post| ==> IsWhitespace(post[i])
    requires word != [] && !IsWhitespace(word[|word| - 1])
    ensures TrimEnd(word + post) == word
  {
    var t := word + post;
    var u := TrimEnd(t);
    var n := |word|;
    assert !IsWhitespace(t[n - 1]);
    assert forall i :: n <= i < |t| ==> IsWhitespace(t[i]) by {
      forall i | n <= i < |t| ensures IsWhitespace(t[i]) { assert t[i] == post[i - n]; }
    }
    assert u[|u| - 1] == t[|u| - 1];
    assert |u| == n;
    assert u == t[..n];
  }

  /** `Y`, `yes`, `YES` and every other casing of `y` or `yes`, with any whitespace
      around, is a yes whatever the default. */
  lemma YesAccepted(pre: string, word: string, post: string, default: bool)
    requires forall i :: 0 <= i < |pre| ==> IsWhitespace(pre[i])
    requires forall i :: 0 <= i < |post| ==> IsWhitespace(post[i])
    requires EqIgnoreAsciiCase(word, "y") || EqIgnoreAsciiCase(word, "yes")
    ensures ConfirmAnswer(pre + word + post, default)
  {
    assert |ToLower(word)| == |word|;
    assert word != [];
    assert LowerChar(word[0]) == 'y' && LowerChar(word[|word| - 1]) in {'y', 's'};
    TrimAround(pre, word, post);
  }

  /** A word other than those is a no, even when the default is yes. */
  lemma OtherWordsRefused(line: string)
    requires line == "yeah\n"
    ensures !ConfirmAnswer(line, true)
  {
    TrimAround("", "yeah", "\n");
    assert "" + "yeah" + "\n" == line;
    assert ToLower("yeah") == "yeah";
  }
}
