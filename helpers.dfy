/** The small text helpers of the bot: `escape_code`, `remove_hashtags_mentions`
    and `chunk_array` (bot.py:323-344). */
module Helpers {
  import opened Wrappers
  import opened Strings

  // ---------------------------------------------------------------------------
  // escape_code
  // ---------------------------------------------------------------------------

  /** The replacement table of `escape_code`, in the dictionary's insertion order. */
  const EscapeTable: seq<(char, string)> :=
    [('`', "\\`"), ('\\', "\\\\"), ('<', "&lt;"), ('>', "&gt;"), ('&', "&amp;")]

  /** `s.replace(c, r)` for a one-character pattern. */
  function Replace(s: string, c: char, r: string): string {
    if s == [] then [] else (if s[0] == c then r else [s[0]]) + Replace(s[1..], c, r)
  }

  lemma {:induction false} ReplaceAppend(a: string, b: string, c: char, r: string)
    ensures Replace(a + b, c, r) == Replace(a, c, r) + Replace(b, c, r)
  {
    if a != [] {
      ReplaceAppend(a[1..], b, c, r);
      assert (a + b)[1..] == a[1..] + b;
    } else {
      assert a + b == b;
    }
  }

  /** The text after applying the first entries of the table one after the other. */
  function ReplaceAll(s: string, table: seq<(char, string)>): string {
    if table == [] then s
    else
      var last := table[|table| - 1];
      Replace(ReplaceAll(s, table[..|table| - 1]), last.0, last.1)
  }

  lemma {:induction false} ReplaceAllAppend(a: string, b: string, table: seq<(char, string)>)
    ensures ReplaceAll(a + b, table) == ReplaceAll(a, table) + ReplaceAll(b, table)
  {
    if table != [] {
      var last := table[|table| - 1];
      ReplaceAllAppend(a, b, table[..|table| - 1]);
      ReplaceAppend(ReplaceAll(a, table[..|table| - 1]), ReplaceAll(b, table[..|table| - 1]), last.0, last.1);
    }
  }

  /** What one input character turns into after the five passes of `escape_code`:
      later passes re-escape what earlier passes inserted. */
  function EscapeExpansion(c: char): string {
    if c == '`' then "\\\\`"
    else if c == '\\' then "\\\\"
    else if c == '<' then "&amp;lt;"
    else if c == '>' then "&amp;gt;"
    else if c == '&' then "&amp;"
    else [c]
  }

  /** The per-character reading of `escape_code`. */
  function EscapedText(s: string): string {
    if s == [] then [] else EscapeExpansion(s[0]) + EscapedText(s[1..])
  }

  lemma ReplaceSingle(c: char, x: char, r: string)
    ensures Replace([c], x, r) == if c == x then r else [c]
  {
    assert [c][1..] == [];
  }

  lemma {:induction false} ReplaceAbsent(s: string, x: char, r: string)
    requires x !in s
    ensures Replace(s, x, r) == s
  {
    if s != [] {
      ReplaceAbsent(s[1..], x, r);
      assert [s[0]] + s[1..] == s;
    }
  }

  lemma {:induction false} ReplaceAllEmpty(table: seq<(char, string)>)
    ensures ReplaceAll([], table) == []
  {
    if table != [] {
      ReplaceAllEmpty(table[..|table| - 1]);
    }
  }

  /** The five passes of `escape_code` written out one after the other. */
  function FivePasses(s: string): string {
    Replace(Replace(Replace(Replace(Replace(s, '`', "\\`"), '\\', "\\\\"), '<', "&lt;"), '>', "&gt;"), '&', "&amp;")
  }

  lemma ReplaceAllEscapeTable(s: string)
    ensures ReplaceAll(s, EscapeTable) == FivePasses(s)
  {
    var t := EscapeTable;
    assert t[..1][..0] == [] && t[..2][..1] == t[..1] && t[..3][..2] == t[..2];
    assert t[..4][..3] == t[..3] && t[..5][..4] == t[..4] && t[..5] == t;
    var s1 := Replace(s, '`', "\\`");
    assert ReplaceAll(s, t[..1]) == s1;
    var s2 := Replace(s1, '\\', "\\\\");
    assert ReplaceAll(s, t[..2]) == s2;
    var s3 := Replace(s2, '<', "&lt;");
    assert ReplaceAll(s, t[..3]) == s3;
    var s4 := Replace(s3, '>', "&gt;");
    assert ReplaceAll(s, t[..4]) == s4;
  }

  /** The last three passes leave text without `<`, `>` and `&` alone. */
  lemma LastPassesAbsent(s: string)
    requires '<' !in s && '>' !in s && '&' !in s
    ensures Replace(Replace(Replace(s, '<', "&lt;"), '>', "&gt;"), '&', "&amp;") == s
  {
    ReplaceAbsent(s, '<', "&lt;");
    ReplaceAbsent(s, '>', "&gt;");
    ReplaceAbsent(s, '&', "&amp;");
  }

  lemma FivePassesBacktick()
    ensures FivePasses("`") == EscapeExpansion('`')
  {
    ReplaceSingle('`', '`', "\\`");
    ReplaceAppend("\\", "`", '\\', "\\\\");
    ReplaceSingle('\\', '\\', "\\\\");
    ReplaceSingle('`', '\\', "\\\\");
    assert Replace("\\`", '\\', "\\\\") == "\\\\`";
    LastPassesAbsent("\\\\`");
  }

  lemma FivePassesBackslash()
    ensures FivePasses("\\") == EscapeExpansion('\\')
  {
    ReplaceSingle('\\', '`', "\\`");
    ReplaceSingle('\\', '\\', "\\\\");
    LastPassesAbsent("\\\\");
  }

  /** `&` is the last pass, so the `&` that `<` and `>` turn into is escaped again. */
  lemma AmpersandPass(rest: string)
    requires '&' !in rest
    ensures Replace("&" + rest, '&', "&amp;") == "&amp;" + rest
  {
    ReplaceAppend("&", rest, '&', "&amp;");
    ReplaceSingle('&', '&', "&amp;");
    ReplaceAbsent(rest, '&', "&amp;");
  }

  lemma FivePassesLess()
    ensures FivePasses("<") == EscapeExpansion('<')
  {
    ReplaceSingle('<', '`', "\\`");
    ReplaceSingle('<', '\\', "\\\\");
    ReplaceSingle('<', '<', "&lt;");
    ReplaceAbsent("&lt;", '>', "&gt;");
    AmpersandPass("lt;");
    assert "&" + "lt;" == "&lt;";
  }

  lemma FivePassesGreater()
    ensures FivePasses(">") == EscapeExpansion('>')
  {
    ReplaceSingle('>', '`', "\\`");
    ReplaceSingle('>', '\\', "\\\\");
    ReplaceSingle('>', '<', "&lt;");
    ReplaceSingle('>', '>', "&gt;");
    AmpersandPass("gt;");
    assert "&" + "gt;" == "&gt;";
  }

  lemma FivePassesOther(c: char)
    requires c != '`' && c != '\\' && c != '<' && c != '>'
    ensures FivePasses([c]) == EscapeExpansion(c)
  {
    ReplaceSingle(c, '`', "\\`");
    ReplaceSingle(c, '\\', "\\\\");
    ReplaceSingle(c, '<', "&lt;");
    ReplaceSingle(c, '>', "&gt;");
    ReplaceSingle(c, '&', "&amp;");
  }

  lemma ReplaceAllOneChar(c: char)
    ensures ReplaceAll([c], EscapeTable) == EscapeExpansion(c)
  {
    ReplaceAllEscapeTable([c]);
    if c == '`' {
      FivePassesBacktick();
    } else if c == '\\' {
      FivePassesBackslash();
    } else if c == '<' {
      FivePassesLess();
    } else if c == '>' {
      FivePassesGreater();
    } else {
      FivePassesOther(c);
    }
  }

  lemma {:induction false} ReplaceAllIsExpansion(s: string)
    ensures ReplaceAll(s, EscapeTable) == EscapedText(s)
  {
    if s == [] {
      ReplaceAllEmpty(EscapeTable);
    } else {
      ReplaceAllIsExpansion(s[1..]);
      ReplaceAllAppend([s[0]], s[1..], EscapeTable);
      ReplaceAllOneChar(s[0]);
      assert [s[0]] + s[1..] == s;
    }
  }

  /** `escape_code(text)`: the five replacements applied in table order. */
  method EscapeCode(text: string) returns (r: string)
    ensures r == EscapedText(text)
  {
    r := text;
    for k := 0 to |EscapeTable|
      invariant r == ReplaceAll(text, EscapeTable[..k])
    {
      assert EscapeTable[..k + 1][..k] == EscapeTable[..k];
      r := Replace(r, EscapeTable[k].0, EscapeTable[k].1);
    }
    assert EscapeTable[..|EscapeTable|] == EscapeTable;
    ReplaceAllIsExpansion(text);
  }

  /** The output of `escape_code` never holds an angle bracket. */
  lemma {:induction false} EscapedTextHasNoAngles(s: string)
    ensures '<' !in EscapedText(s) && '>' !in EscapedText(s)
  {
    if s != [] {
      EscapedTextHasNoAngles(s[1..]);
    }
  }

  predicate IsEscaped(c: char) {
    c == '`' || c == '\\' || c == '<' || c == '>' || c == '&'
  }

  /** Characters outside the five are left as they are. */
  lemma {:induction false} EscapedTextKeepsPlainText(s: string)
    requires forall i :: 0 <= i < |s| ==> !IsEscaped(s[i])
    ensures EscapedText(s) == s
  {
    if s != [] {
      EscapedTextKeepsPlainText(s[1..]);
      assert [s[0]] + s[1..] == s;
    }
  }

  /** Reads the table's replacements back into the characters they stand for. */
  function Unescape(s: string): string
    decreases |s|
  {
    if s == [] then []
    else if "&amp;" <= s then "&" + Unescape(s[5..])
    else if "&lt;" <= s then "<" + Unescape(s[4..])
    else if "&gt;" <= s then ">" + Unescape(s[4..])
    else if "\\\\" <= s then "\\" + Unescape(s[2..])
    else if "\\`" <= s then "`" + Unescape(s[2..])
    else [s[0]] + Unescape(s[1..])
  }

  /** Because `&` is replaced last, `<` comes out as `&amp;lt;`, which reads back as `&lt;`
      instead of `<`; a backtick comes out as two backslashes and a backtick. */
  lemma EscapeCodeDoubleEscapes()
    ensures EscapedText("<") == "&amp;lt;"
    ensures EscapedText("`") == "\\\\`"
    ensures Unescape(EscapedText("<")) == "&lt;" != "<"
  {
    assert EscapedText("<") == "&amp;lt;" + EscapedText("");
    var s := "&amp;lt;";
    assert "&amp;" <= s;
    assert s[5..] == "lt;";
    assert Unescape("lt;") == "l" + Unescape("t;");
    assert Unescape("t;") == "t" + Unescape(";");
    assert Unescape(";") == ";" + Unescape("");
    assert EscapedText("`") == "\\\\`" + EscapedText("");
  }

  /** Each character replaced once by its table entry: what the table evidently intends. */
  function EscapeOnce(c: char): string {
    if c == '`' then "\\`"
    else if c == '\\' then "\\\\"
    else if c == '<' then "&lt;"
    else if c == '>' then "&gt;"
    else if c == '&' then "&amp;"
    else [c]
  }

  /** `escape_code` as a single pass over the text. */
  function EscapeCodeOnce(s: string): string {
    if s == [] then [] else EscapeOnce(s[0]) + EscapeCodeOnce(s[1..])
  }

  lemma UnescapeOne(c: char, rest: string)
    ensures Unescape(EscapeOnce(c) + rest) == [c] + Unescape(rest)
  {
    var s := EscapeOnce(c) + rest;
    if c == '&' {
      assert "&amp;" <= s && s[5..] == rest;
    } else if c == '<' {
      assert s[1] == 'l';
      assert !("&amp;" <= s) && "&lt;" <= s && s[4..] == rest;
    } else if c == '>' {
      assert s[1] == 'g';
      assert !("&amp;" <= s) && !("&lt;" <= s) && "&gt;" <= s && s[4..] == rest;
    } else if c == '\\' {
      assert s[0] == '\\' && s[1] == '\\' && s[2..] == rest;
    } else if c == '`' {
      assert s[0] == '\\' && s[1] == '`' && s[2..] == rest;
    } else {
      assert s == [c] + rest && s[0] == c && s[1..] == rest;
      assert !("&amp;" <= s) && !("&lt;" <= s) && !("&gt;" <= s);
      assert !("\\\\" <= s) && !("\\`" <= s);
    }
  }

  /** The single-pass escape can always be read back. */
  lemma {:induction false} EscapeCodeOnceRoundTrip(s: string)
    ensures Unescape(EscapeCodeOnce(s)) == s
  {
    if s != [] {
      EscapeCodeOnceRoundTrip(s[1..]);
      UnescapeOne(s[0], EscapeCodeOnce(s[1..]));
      assert [s[0]] + s[1..] == s;
    }
  }

  // ---------------------------------------------------------------------------
  // remove_hashtags_mentions
  // ---------------------------------------------------------------------------

  predicate IsTagMark(c: char) {
    c == '#' || c == '@'
  }

  /** Drops the leading run of non-space characters (the greedy `\S+`). */
  function SkipWord(s: string): (r: string)
    ensures |r| <= |s|
    ensures r == [] || IsSpace(r[0])
  {
    if s != [] && !IsSpace(s[0]) then SkipWord(s[1..]) else s
  }

  /** What `SkipWord` leaves is the end of its input, after a run of non-space characters. */
  lemma {:induction false} SkipWordIsSuffix(s: string)
    ensures SkipWord(s) == s[|s| - |SkipWord(s)|..]
    ensures forall i :: 0 <= i < |s| - |SkipWord(s)| ==> !IsSpace(s[i])
  {
    if s != [] && !IsSpace(s[0]) {
      SkipWordIsSuffix(s[1..]);
      assert s[1..][|s| - 1 - |SkipWord(s)|..] == s[|s| - |SkipWord(s)|..];
    }
  }

  /** `re.sub(r'[#@]\S+', '', s)`: scanning left to right, each mark followed by
      at least one non-space character is removed together with that whole run. */
  function DropTags(s: string): string
    decreases |s|
  {
    if s == [] then []
    else if IsTagMark(s[0]) && |s| >= 2 && !IsSpace(s[1]) then DropTags(SkipWord(s[1..]))
    else [s[0]] + DropTags(s[1..])
  }

  /** Every remaining `#` or `@` ends the text or is followed by whitespace. */
  predicate NoTags(s: string) {
    forall i :: 0 <= i < |s| - 1 && IsTagMark(s[i]) ==> IsSpace(s[i + 1])
  }

  lemma {:induction false} DropTagsLeavesNoTags(s: string)
    ensures NoTags(DropTags(s))
    ensures s != [] && IsSpace(s[0]) ==> DropTags(s) == [s[0]] + DropTags(s[1..])
    decreases |s|
  {
    if s == [] {
    } else if IsTagMark(s[0]) && |s| >= 2 && !IsSpace(s[1]) {
      DropTagsLeavesNoTags(SkipWord(s[1..]));
    } else {
      DropTagsLeavesNoTags(s[1..]);
      var r := DropTags(s);
      var tail := DropTags(s[1..]);
      assert r == [s[0]] + tail;
      forall i | 0 <= i < |r| - 1 && IsTagMark(r[i])
        ensures IsSpace(r[i + 1])
      {
        if i == 0 {
          assert |s| >= 2 && IsSpace(s[1]);
          assert tail == [s[1]] + DropTags(s[2..]) by {
            assert s[1..][1..] == s[2..];
          }
        } else {
          assert r[i] == tail[i - 1] && r[i + 1] == tail[i];
        }
      }
    }
  }

  lemma NoTagsSlice(s: string, lo: nat, hi: nat)
    requires NoTags(s) && lo <= hi <= |s|
    ensures NoTags(s[lo..hi])
  {
    var t := s[lo..hi];
    forall i | 0 <= i < |t| - 1 && IsTagMark(t[i])
      ensures IsSpace(t[i + 1])
    {
      assert t[i] == s[lo + i] && t[i + 1] == s[lo + i + 1];
    }
  }

  /** `remove_hashtags_mentions(text)`: tags removed, then whitespace stripped.
      An empty text is returned as it is, which the general case also does. */
  function RemoveHashtagsMentions(text: string): string {
    Strip(DropTags(text))
  }

  /** No tag survives, and text without any `#` or `@` is only stripped. */
  lemma RemoveHashtagsMentionsFacts(text: string)
    ensures NoTags(RemoveHashtagsMentions(text))
    ensures (forall i :: 0 <= i < |text| ==> !IsTagMark(text[i])) ==> RemoveHashtagsMentions(text) == Strip(text)
  {
    DropTagsLeavesNoTags(text);
    var d := DropTags(text);
    var a := StripStart(d);
    StripStartFacts(d);
    StripEndFacts(a);
    NoTagsSlice(d, |d| - |a|, |d|);
    NoTagsSlice(a, 0, |StripEnd(a)|);
    DropTagsKeepsUntagged(text);
  }

  lemma {:induction false} DropTagsKeepsUntagged(s: string)
    ensures (forall i :: 0 <= i < |s| ==> !IsTagMark(s[i])) ==> DropTags(s) == s
  {
    if s != [] && forall i :: 0 <= i < |s| ==> !IsTagMark(s[i]) {
      assert forall i :: 0 <= i < |s[1..]| ==> !IsTagMark(s[1..][i]) by {
        forall i | 0 <= i < |s[1..]| ensures !IsTagMark(s[1..][i]) {
          assert s[1..][i] == s[i + 1];
        }
      }
      DropTagsKeepsUntagged(s[1..]);
      assert [s[0]] + s[1..] == s;
    }
  }

  // ---------------------------------------------------------------------------
  // chunk_array
  // ---------------------------------------------------------------------------

  /** Consecutive slices of `size` elements, the last one possibly shorter. */
  function Chunks<T>(a: seq<T>, size: nat): seq<seq<T>>
    requires size > 0
    decreases |a|
  {
    if |a| == 0 then []
    else if |a| <= size then [a]
    else [a[..size]] + Chunks(a[size..], size)
  }

  /** `chunk_array(array, chunk_size)`: `range` with step 0 raises, a negative
      step yields no index at all. */
  function ChunkArray<T>(a: seq<T>, size: int): (r: Result<seq<seq<T>>, string>)
    ensures r.Failure? <==> size == 0
    ensures size < 0 ==> r == Success([])
    ensures size > 0 ==>
      (r.Success? && Concat(r.value) == a && forall k :: 0 <= k < |r.value| ==> 0 < |r.value[k]| <= size)
  {
    if size == 0 then Failure("range() arg 3 must not be zero")
    else if size < 0 then Success([])
    else
      ChunksConcat(a, size);
      ChunksShape(a, size);
      Success(Chunks(a, size))
  }

  function Concat<T>(chunks: seq<seq<T>>): seq<T> {
    if chunks == [] then [] else chunks[0] + Concat(chunks[1..])
  }

  /** Gluing the chunks back together gives the array. */
  lemma {:induction false} ChunksConcat<T>(a: seq<T>, size: nat)
    requires size > 0
    ensures Concat(Chunks(a, size)) == a
    decreases |a|
  {
    if |a| > size {
      ChunksConcat(a[size..], size);
      assert a[..size] + a[size..] == a;
    }
  }

  /** Every chunk is non-empty and holds `size` elements, except maybe the last,
      and there are as many chunks as `range(0, len(a), size)` has indices:
      the fewest whose sizes add up to at least `|a|`. */
  lemma {:induction false} ChunksShape<T>(a: seq<T>, size: nat)
    requires size > 0
    ensures var c := Chunks(a, size);
      && |a| <= |c| * size
      && (|c| > 0 ==> (|c| - 1) * size < |a|)
      && forall k :: 0 <= k < |c| ==> 0 < |c[k]| <= size && (k < |c| - 1 ==> |c[k]| == size)
    decreases |a|
  {
    if |a| > size {
      ChunksShape(a[size..], size);
      var c := Chunks(a, size);
      var rest := Chunks(a[size..], size);
      assert c == [a[..size]] + rest;
      assert |c| * size == |rest| * size + size;
      assert (|c| - 1) * size == |rest| * size;
      forall k | 0 <= k < |c|
        ensures 0 < |c[k]| <= size && (k < |c| - 1 ==> |c[k]| == size)
      {
        if k > 0 {
          assert c[k] == rest[k - 1];
        }
      }
    }
  }
}
