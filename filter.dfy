/**
 * Line splitting and substring filtering (filter.go).
 *
 * A Go byte is modelled as a `char` and a Go `[]byte` or `string` as a
 * `string`; `string(line[j:i])` is a copy, so it is the slice itself here.
 * Go checks a slice expression against the capacity of the slice, not its
 * length, so `split` is given the byte that follows `line` in its backing
 * array, when there is one.
 */
module Filter {
  import opened Results


  // ---------------------------------------------------------------------------
  // Whitespace
  // ---------------------------------------------------------------------------

  /** The bytes `split` treats as separators: space, tab, vertical tab, newline. */
  predicate IsSpace(c: char) {
    c == ' ' || c == '\t' || c == '\U{000B}' || c == '\n'
  }

  /** Exactly four bytes are separators; carriage return and form feed are not. */
  lemma IsSpaceExactly()
    ensures forall c :: IsSpace(c) <==> c in {' ', '\t', '\U{000B}', '\n'}
    ensures !IsSpace('\r') && !IsSpace('\U{000C}')
  {
  }

  predicate NoSpace(s: string) {
    forall k :: 0 <= k < |s| ==> !IsSpace(s[k])
  }

  predicate AllSpace(s: string) {
    forall k :: 0 <= k < |s| ==> IsSpace(s[k])
  }

  /** The index of the first separator of `s`, or |s| when it has none. */
  function SpaceIndex(s: string): (n: nat)
    ensures n <= |s|
    ensures forall k :: 0 <= k < n ==> !IsSpace(s[k])
    ensures n < |s| ==> IsSpace(s[n])
  {
    if s == [] || IsSpace(s[0]) then 0 else 1 + SpaceIndex(s[1..])
  }

  // ---------------------------------------------------------------------------
  // What `split` computes
  // ---------------------------------------------------------------------------

  /**
   * The maximal runs of non-separator bytes of `s`, in order. When `lead`
   * holds, `s[0]` starts a run whatever byte it is: `split` never treats the
   * first byte of a line as a separator.
   */
  function Tokens(s: string, lead: bool): seq<string>
    decreases |s|
  {
    if s == [] then []
    else if !lead && IsSpace(s[0]) then Tokens(s[1..], false)
    else
      var k := 1 + SpaceIndex(s[1..]);
      [s[..k]] + Tokens(s[k..], false)
  }

  /** Tokens are never empty, and there are no more of them than bytes. */
  lemma {:induction false} TokensShape(s: string, lead: bool)
    ensures forall i :: 0 <= i < |Tokens(s, lead)| ==> Tokens(s, lead)[i] != []
    ensures |Tokens(s, lead)| <= |s|
    decreases |s|
  {
    if s != [] {
      if !lead && IsSpace(s[0]) {
        TokensShape(s[1..], false);
      } else {
        var k := 1 + SpaceIndex(s[1..]);
        TokensShape(s[k..], false);
      }
    }
  }

  /** The whitespace-delimited fields of `s`: its maximal non-separator runs. */
  function Fields(s: string): seq<string> {
    Tokens(s, false)
  }

  /**
   * The outcome of `split`: the words, or the run-time panic of filter.go:29
   * when the final slice `line[j:i]`, with `i == len(line) + 1`, reaches
   * past the capacity of `line`.
   */
  datatype SplitResult = Words(words: seq<string>) | OutOfRange

  /**
   * What `split` does, stated without its cursors. The words are the maximal
   * runs of bytes that are not separators, where the first byte of the line
   * never counts as a separator. A line of two or more bytes that ends in a
   * separator makes `split` slice one byte past its end: that byte, `beyond`,
   * becomes a last word, and when the line has no spare capacity (`beyond`
   * is None) the slice panics.
   */
  function SplitSpec(line: string, beyond: Option<char>): (r: SplitResult)
    ensures r.Words? ==> forall i :: 0 <= i < |r.words| ==> r.words[i] != []
    ensures r.Words? ==> |r.words| <= |line| + 1
    ensures line == [] ==> r == Words([])
  {
    TokensShape(line, true);
    if |line| > 1 && IsSpace(line[|line| - 1]) then
      if beyond.Some? then Words(Tokens(line, true) + [[beyond.value]]) else OutOfRange
    else Words(Tokens(line, true))
  }

  /** One token taken off the front of `s`: `s[..k]` is a whole run. */
  lemma {:induction false} TakeToken(s: string, lead: bool, k: nat)
    requires 0 < k <= |s|
    requires lead || !IsSpace(s[0])
    requires forall m :: 0 < m < k ==> !IsSpace(s[m])
    requires k == |s| || IsSpace(s[k])
    ensures Tokens(s, lead) == [s[..k]] + Tokens(s[k..], false)
  {
    var t := s[1..];
    assert forall m :: 0 <= m < k - 1 ==> !IsSpace(t[m]) by {
      forall m | 0 <= m < k - 1 ensures !IsSpace(t[m]) { assert t[m] == s[m + 1]; }
    }
    assert SpaceIndex(t) == k - 1;
  }

  /** A run of separators in front of `s` contributes no field. */
  lemma {:induction false} SkipSpaces(s: string, k: nat)
    requires k <= |s|
    requires forall m :: 0 <= m < k ==> IsSpace(s[m])
    ensures Tokens(s, false) == Tokens(s[k..], false)
  {
    if k > 0 {
      assert s[1..][k - 1..] == s[k..];
      SkipSpaces(s[1..], k - 1);
    }
  }

  /** TakeToken, stated on a suffix `line[j..]` of the line. */
  lemma {:induction false} TakeTokenAt(line: string, j: nat, i: nat)
    requires j < i < |line|
    requires j == 0 || !IsSpace(line[j])
    requires forall k :: j < k < i ==> !IsSpace(line[k])
    requires IsSpace(line[i])
    ensures Tokens(line[j..], j == 0) == [line[j..i]] + Tokens(line[i..], false)
  {
    var s := line[j..];
    assert forall m :: 0 < m < i - j ==> !IsSpace(s[m]) by {
      forall m | 0 < m < i - j ensures !IsSpace(s[m]) { assert s[m] == line[j + m]; }
    }
    assert s[0] == line[j] && s[i - j] == line[i];
    TakeToken(s, j == 0, i - j);
    assert s[..i - j] == line[j..i];
    assert s[i - j..] == line[i..];
  }

  /** SkipSpaces, stated on a suffix `line[i..]` of the line. */
  lemma {:induction false} SkipSpacesAt(line: string, i: nat, i': nat)
    requires i <= i' <= |line|
    requires forall k :: i <= k < i' ==> IsSpace(line[k])
    ensures Tokens(line[i..], false) == Tokens(line[i'..], false)
  {
    var t := line[i..];
    assert forall m :: 0 <= m < i' - i ==> IsSpace(t[m]) by {
      forall m | 0 <= m < i' - i ensures IsSpace(t[m]) { assert t[m] == line[i + m]; }
    }
    SkipSpaces(t, i' - i);
    assert t[i' - i..] == line[i'..];
  }

  /** One emitted token and the separator run after it: the cursors move from `j` to `i'`. */
  lemma {:induction false} EmitToken(line: string, words: seq<string>, j: nat, i: nat, i': nat)
    requires j < i < i' <= |line|
    requires j == 0 || !IsSpace(line[j])
    requires forall k :: j < k < i ==> !IsSpace(line[k])
    requires forall k :: i <= k < i' ==> IsSpace(line[k])
    requires words + Tokens(line[j..], j == 0) == Tokens(line, true)
    ensures (words + [line[j..i]]) + Tokens(line[i'..], i' == 0) == Tokens(line, true)
  {
    TokenStep(line, j, i, i');
    var w, rest := line[j..i], Tokens(line[i'..], i' == 0);
    assert (words + [w]) + rest == words + ([w] + rest);
  }

  /** The token at `j` and the separator run after it, taken off the suffix `line[j..]`. */
  lemma {:induction false} TokenStep(line: string, j: nat, i: nat, i': nat)
    requires j < i < i' <= |line|
    requires j == 0 || !IsSpace(line[j])
    requires forall k :: j < k < i ==> !IsSpace(line[k])
    requires forall k :: i <= k < i' ==> IsSpace(line[k])
    ensures Tokens(line[j..], j == 0) == [line[j..i]] + Tokens(line[i'..], i' == 0)
  {
    TakeTokenAt(line, j, i);
    SkipSpacesAt(line, i, i');
  }

  /** The final step of `split`: the rest of the line is one token. */
  lemma {:induction false} LastToken(line: string, j: nat)
    requires j < |line|
    requires j == 0 || !IsSpace(line[j])
    requires forall k :: j < k < |line| ==> !IsSpace(line[k])
    ensures Tokens(line[j..], j == 0) == [line[j..]]
  {
    var s := line[j..];
    assert forall m :: 0 < m < |s| ==> !IsSpace(s[m]) by {
      forall m | 0 < m < |s| ensures !IsSpace(s[m]) { assert s[m] == line[j + m]; }
    }
    TakeToken(s, j == 0, |s|);
    assert s[..|s|] == s;
    assert s[|s|..] == [];
  }

  // ---------------------------------------------------------------------------
  // The imperative tokenizer
  // ---------------------------------------------------------------------------

  /** The inner loop of `split`: from `i`, the index just past the separator run there. */
  method SkipSeparators(line: string, i: nat) returns (i': nat)
    requires i <= |line|
    ensures i <= i' <= |line|
    ensures forall m :: i <= m < i' ==> IsSpace(line[m])
    ensures i' == |line| || !IsSpace(line[i'])
  {
    i' := i;
    while i' < |line| && IsSpace(line[i'])
      invariant i <= i' <= |line|
      invariant forall m :: i <= m < i' ==> IsSpace(line[m])
    {
      i' := i' + 1;
    }
  }

  /**
   * filter.go's two-cursor tokenizer: `j` marks the start of the current
   * token, `i` scans; a separator after a token emits `line[j:i]` and skips
   * the separator run. `beyond` is the byte after `line` in its backing
   * array, or None when its capacity equals its length. Proved equal to
   * SplitSpec.
   */
  method Split(line: string, beyond: Option<char>) returns (r: SplitResult)
    ensures r == SplitSpec(line, beyond)
  {
    var words: seq<string> := [];
    var i, j := 0, 0;
    while i < |line|
      invariant 0 <= j <= |line|
      invariant j <= i <= |line| + 1
      invariant i == |line| + 1 ==> j == |line| > 0
      invariant j == |line| && j > 0 ==> |line| > 1 && IsSpace(line[|line| - 1]) && i == |line| + 1
      invariant 0 < j < |line| ==> !IsSpace(line[j])
      invariant forall k :: j < k < i && k < |line| ==> !IsSpace(line[k])
      invariant words + Tokens(line[j..], j == 0) == Tokens(line, true)
      decreases |line| + 1 - i
    {
      if IsSpace(line[i]) && j < i {
        words := words + [line[j..i]];
        var start := i;
        i := SkipSeparators(line, i);
        EmitToken(line, words[..|words| - 1], j, start, i);
        j := i;
      }
      i := i + 1;
    }
    if j < i {
      if i > |line| {
        // line[len(line):len(line)+1]: the byte past the end, if the capacity allows it
        if beyond.None? {
          return OutOfRange;
        }
        words := words + [[beyond.value]];
      } else {
        LastToken(line, j);
        words := words + [line[j..]];
      }
    }
    r := Words(words);
  }

  // ---------------------------------------------------------------------------
  // Properties of split
  // ---------------------------------------------------------------------------

  /** Fields never yields an empty token nor one that holds a separator. */
  lemma {:induction false} FieldsWellFormed(s: string)
    ensures forall t :: t in Fields(s) ==> t != [] && NoSpace(t)
    decreases |s|
  {
    if s == [] {
    } else if IsSpace(s[0]) {
      assert Fields(s) == Fields(s[1..]);
      FieldsWellFormed(s[1..]);
    } else {
      var k := 1 + SpaceIndex(s[1..]);
      assert forall m :: 0 <= m < k ==> !IsSpace(s[m]) by {
        forall m | 0 <= m < k ensures !IsSpace(s[m]) {
          if m > 0 { assert s[m] == s[1..][m - 1]; }
        }
      }
      assert NoSpace(s[..k]) by {
        forall m | 0 <= m < k ensures !IsSpace(s[..k][m]) { assert s[..k][m] == s[m]; }
      }
      assert Fields(s) == [s[..k]] + Fields(s[k..]);
      FieldsWellFormed(s[k..]);
    }
  }

  /** A word without separators is its own only field. */
  lemma FieldsOfWord(w: string)
    requires w != [] && NoSpace(w)
    ensures Fields(w) == [w]
  {
    TakeToken(w, false, |w|);
    assert w[..|w|] == w;
    assert w[|w|..] == [];
  }

  /** A non-empty separator run splits a line into two independent halves. */
  lemma {:induction false} FieldsConcat(a: string, sep: string, b: string)
    requires sep != [] && AllSpace(sep)
    ensures Fields(a + sep + b) == Fields(a) + Fields(b)
    decreases |a|
  {
    if a == [] {
      SeparatorThenLine(sep, b);
    } else if IsSpace(a[0]) {
      FieldsConcat(a[1..], sep, b);
      LeadingSeparatorOfConcat(a, sep, b);
    } else {
      var k := 1 + SpaceIndex(a[1..]);
      FieldsConcat(a[k..], sep, b);
      FirstWordOfConcat(a, sep, b);
      assert [a[..k]] + (Fields(a[k..]) + Fields(b)) == ([a[..k]] + Fields(a[k..])) + Fields(b);
    }
  }

  /** A separator run in front of a line adds no field. */
  lemma {:induction false} SeparatorThenLine(sep: string, b: string)
    requires AllSpace(sep)
    ensures Fields([] + sep + b) == Fields([]) + Fields(b)
  {
    var s := [] + sep + b;
    assert s == sep + b;
    SkipSpaces(s, |sep|);
    assert s[|sep|..] == b;
  }

  /** A leading separator of `a` is dropped from `a + sep + b` as from `a`. */
  lemma {:induction false} LeadingSeparatorOfConcat(a: string, sep: string, b: string)
    requires a != [] && IsSpace(a[0])
    requires Fields(a[1..] + sep + b) == Fields(a[1..]) + Fields(b)
    ensures Fields(a + sep + b) == Fields(a) + Fields(b)
  {
    var s := a + sep + b;
    assert s[0] == a[0];
    assert s[1..] == a[1..] + sep + b;
  }

  /** The first word of `a` is also the first word of `a + sep + b`. */
  lemma {:induction false} FirstWordOfConcat(a: string, sep: string, b: string)
    requires a != [] && !IsSpace(a[0])
    requires sep != [] && AllSpace(sep)
    ensures var k := 1 + SpaceIndex(a[1..]);
      && k <= |a|
      && Fields(a) == [a[..k]] + Fields(a[k..])
      && Fields(a + sep + b) == [a[..k]] + Fields(a[k..] + sep + b)
  {
    var s := a + sep + b;
    var k := 1 + SpaceIndex(a[1..]);
    assert forall m :: 0 < m < k ==> !IsSpace(a[m]) by {
      forall m | 0 < m < k ensures !IsSpace(a[m]) { assert a[m] == a[1..][m - 1]; }
    }
    assert k < |a| ==> IsSpace(a[k]) by {
      if k < |a| { assert a[k] == a[1..][k - 1]; }
    }
    assert IsSpace(s[k]) by {
      if k < |a| { assert s[k] == a[k]; } else { assert s[k] == sep[0]; }
    }
    assert forall m :: 0 < m < k ==> !IsSpace(s[m]) by {
      forall m | 0 < m < k ensures !IsSpace(s[m]) { assert s[m] == a[m]; }
    }
    TakeToken(s, false, k);
    TakeToken(a, false, k);
    assert s[..k] == a[..k];
    assert s[k..] == a[k..] + sep + b;
  }

  /** Words `ws` written out with the separator runs `seps` between them. */
  function Joined(ws: seq<string>, seps: seq<string>): string
    requires |ws| == |seps| + 1
  {
    if |ws| == 1 then ws[0] else ws[0] + seps[0] + Joined(ws[1..], seps[1..])
  }

  predicate GoodWords(ws: seq<string>) {
    forall k :: 0 <= k < |ws| ==> ws[k] != [] && NoSpace(ws[k])
  }

  predicate GoodSeparators(seps: seq<string>) {
    forall k :: 0 <= k < |seps| ==> seps[k] != [] && AllSpace(seps[k])
  }

  /** Fields recovers the words of a line however long its separator runs are. */
  lemma {:induction false} FieldsOfJoined(ws: seq<string>, seps: seq<string>)
    requires |ws| == |seps| + 1
    requires GoodWords(ws) && GoodSeparators(seps)
    ensures Fields(Joined(ws, seps)) == ws
    ensures Joined(ws, seps) != []
    ensures !IsSpace(Joined(ws, seps)[0])
    ensures !IsSpace(Joined(ws, seps)[|Joined(ws, seps)| - 1])
    decreases |ws|
  {
    if |ws| == 1 {
      FieldsOfWord(ws[0]);
    } else {
      var rest := Joined(ws[1..], seps[1..]);
      FieldsOfJoined(ws[1..], seps[1..]);
      FieldsConcat(ws[0], seps[0], rest);
      FieldsOfWord(ws[0]);
      assert ws == [ws[0]] + ws[1..];
      var line := ws[0] + seps[0] + rest;
      assert line[0] == ws[0][0];
      assert line[|line| - 1] == rest[|rest| - 1];
    }
  }

  /** Whenever the first and last bytes are not separators, split yields exactly Fields. */
  lemma SplitIsFields(line: string, beyond: Option<char>)
    requires line != []
    requires !IsSpace(line[0]) && !IsSpace(line[|line| - 1])
    ensures SplitSpec(line, beyond) == Words(Fields(line))
  {
  }

  /** On a line of well-formed words with any separator runs between them, split returns the words. */
  lemma SplitOfJoined(ws: seq<string>, seps: seq<string>, beyond: Option<char>)
    requires |ws| == |seps| + 1
    requires GoodWords(ws) && GoodSeparators(seps)
    ensures SplitSpec(Joined(ws, seps), beyond) == Words(ws)
  {
    FieldsOfJoined(ws, seps);
    SplitIsFields(Joined(ws, seps), beyond);
  }

  /**
   * Words followed by a trailing separator run: split returns the words and
   * then, as one more word, the byte that follows the line.
   */
  lemma SplitOfJoinedWithTrailingSeparator(ws: seq<string>, seps: seq<string>, sep: string, next: char)
    requires |ws| == |seps| + 1
    requires GoodWords(ws) && GoodSeparators(seps)
    requires sep != [] && AllSpace(sep)
    ensures SplitSpec(Joined(ws, seps) + sep, Some(next)) == Words(ws + [[next]])
  {
    var line := Joined(ws, seps);
    var padded := line + sep;
    FieldsOfJoined(ws, seps);
    FieldsConcat(line, sep, "");
    assert padded + "" == padded;
    assert Fields(padded) == ws;
    assert padded[0] == line[0];
    LeadIgnoredAtWord(padded);
    assert padded[|padded| - 1] == sep[|sep| - 1];
  }

  /** When the first byte is not a separator, forcing it to start a run changes nothing. */
  lemma LeadIgnoredAtWord(s: string)
    requires s != [] && !IsSpace(s[0])
    ensures Tokens(s, true) == Fields(s)
  {
  }

  /** Splitting and re-joining with single spaces is a fixed point: split is idempotent on normalised lines. */
  lemma SplitIdempotent(line: string, beyond: Option<char>)
    requires line != []
    requires !IsSpace(line[0]) && !IsSpace(line[|line| - 1])
    ensures var ws := Fields(line);
      |ws| > 0 && SplitSpec(Joined(ws, seq(|ws| - 1, _ => " ")), beyond) == Words(ws)
  {
    var ws := Fields(line);
    FieldsWellFormed(line);
    TakeToken(line, false, 1 + SpaceIndex(line[1..]));
    assert |ws| > 0;
    forall k | 0 <= k < |ws| ensures ws[k] != [] && NoSpace(ws[k]) {
      assert ws[k] in ws;
    }
    SplitOfJoined(ws, seq(|ws| - 1, _ => " "), beyond);
  }

  /** An empty line has no words. */
  lemma SplitOfEmpty(beyond: Option<char>)
    ensures SplitSpec([], beyond) == Words([])
  {
  }

  /** A line without separators is one word, the whole line. */
  lemma SplitOfWord(line: string, beyond: Option<char>)
    requires line != [] && NoSpace(line)
    ensures SplitSpec(line, beyond) == Words([line])
  {
    FieldsOfWord(line);
  }

  /** A leading separator is not dropped: it stays glued to the token after it. */
  lemma SplitKeepsLeadingSeparator(line: string, beyond: Option<char>)
    requires |line| > 1 && IsSpace(line[0]) && !IsSpace(line[1])
    requires !IsSpace(line[|line| - 1])
    ensures SplitSpec(line, beyond).Words?
    ensures var f := Fields(line[1..]);
      |f| > 0 && SplitSpec(line, beyond).words == [[line[0]] + f[0]] + f[1..]
  {
    var t := line[1..];
    var k := SpaceIndex(t);
    TakeToken(t, false, k);
    assert k > 0;
    assert line[..1 + k] == [line[0]] + t[..k];
    assert line[1 + k..] == t[k..];
  }

  /** The example of a leading space: " a b" splits into " a" and "b". */
  lemma SplitLeadingSpaceExample(beyond: Option<char>)
    ensures SplitSpec(" a b", beyond) == Words([" a", "b"])
  {
    SplitKeepsLeadingSeparator(" a b", beyond);
    FieldsConcat("a", " ", "b");
    FieldsOfWord("a");
    FieldsOfWord("b");
    assert " a b"[1..] == "a" + " " + "b";
    assert [' '] + "a" == " a";
  }

  /**
   * split panics exactly on a line of two or more bytes that ends in a
   * separator and has no spare capacity; with spare capacity the byte past
   * the end is a one-byte last word.
   */
  lemma SplitPanicsOnTrailingSeparator(line: string, beyond: Option<char>)
    ensures SplitSpec(line, beyond) == OutOfRange <==> beyond.None? && |line| > 1 && IsSpace(line[|line| - 1])
    ensures SplitSpec(line, beyond).Words? && |line| > 1 && IsSpace(line[|line| - 1]) ==>
      |SplitSpec(line, beyond).words| > 0 && SplitSpec(line, beyond).words[|SplitSpec(line, beyond).words| - 1] == [beyond.value]
  {
  }

  /** The columns and gaps of the `oc get` rows of filter_test.go and proc_test.go are well formed. */
  lemma StatusRowPieces(w0: string, current: string, w4: string)
    requires w0 == "test-shutdown-receiver" && w4 == "config,image(test-shutdown-receiver:latest)"
    requires current == "0" || current == "1"
    ensures GoodWords([w0, "36", "0", current, w4])
    ensures GoodSeparators(["   ", "         ", "         ", "         "])
  {
    assert NoSpace(w0);
    assert NoSpace(w4);
  }

  /** The status row of filter_test.go, with its runs of spaces, splits into its five columns. */
  lemma SplitStatusRowExample(beyond: Option<char>)
    ensures var w0, w4 := "test-shutdown-receiver", "config,image(test-shutdown-receiver:latest)";
      SplitSpec(w0 + "   " + ("36" + "         " + ("0" + "         " + ("1" + "         " + w4))), beyond)
      == Words([w0, "36", "0", "1", w4])
  {
    var w0, w4 := "test-shutdown-receiver", "config,image(test-shutdown-receiver:latest)";
    var ws := [w0, "36", "0", "1", w4];
    var seps := ["   ", "         ", "         ", "         "];
    StatusRowPieces(w0, "1", w4);
    SplitOfJoined(ws, seps, beyond);
    calc {
      Joined(ws, seps);
      w0 + seps[0] + Joined(ws[1..], seps[1..]);
      w0 + seps[0] + ("36" + seps[1] + Joined(ws[2..], seps[2..]));
      w0 + seps[0] + ("36" + seps[1] + ("0" + seps[2] + Joined(ws[3..], seps[3..])));
      w0 + seps[0] + ("36" + seps[1] + ("0" + seps[2] + ("1" + seps[3] + w4)));
    }
  }

  // ---------------------------------------------------------------------------
  // Substring filters and their sinks
  // ---------------------------------------------------------------------------

  /** `bytes.Contains`: `sub` occurs in `s` as a contiguous, case-sensitive run. */
  predicate Contains(s: string, sub: string): (b: bool)
    ensures sub == [] ==> b
    ensures b ==> |sub| <= |s|
  {
    assert sub == [] ==> OccursAt(s, sub, 0);
    exists k :: 0 <= k <= |s| - |sub| && OccursAt(s, sub, k)
  }

  predicate OccursAt(s: string, sub: string, k: nat) {
    k + |sub| <= |s| && s[k..k + |sub|] == sub
  }

  /** What a filter accepts: everything when it has no pattern, else a line holding any one pattern. */
  predicate MatchesAny(patterns: seq<string>, line: string): (b: bool)
    ensures patterns == [] ==> b
    ensures line in patterns ==> b
    ensures b ==> patterns == [] || exists k :: 0 <= k < |patterns| && |patterns[k]| <= |line|
  {
    assert line in patterns ==> OccursAt(line, line, 0);
    |patterns| == 0 || exists k :: 0 <= k < |patterns| && Contains(line, patterns[k])
  }

  /** An empty pattern inside the list matches every line. */
  lemma EmptyPatternMatchesAll(patterns: seq<string>, line: string)
    requires "" in patterns
    ensures MatchesAny(patterns, line)
  {
    var k :| 0 <= k < |patterns| && patterns[k] == "";
    assert OccursAt(line, patterns[k], 0);
  }

  /** The lines of `input` a filter with `patterns` accepts, in input order. */
  function Selected(patterns: seq<string>, input: seq<string>): (r: seq<string>)
  {
    if input == [] then []
    else
      var last := input[|input| - 1];
      Selected(patterns, input[..|input| - 1]) + (if MatchesAny(patterns, last) then [last] else [])
  }

  /** A filter selects exactly the lines it matches, and with no pattern every line. */
  lemma {:induction false} SelectedExactly(patterns: seq<string>, input: seq<string>)
    ensures forall x :: x in Selected(patterns, input) <==> x in input && MatchesAny(patterns, x)
    ensures patterns == [] ==> Selected(patterns, input) == input
  {
    if input != [] {
      SelectedExactly(patterns, input[..|input| - 1]);
      assert input == input[..|input| - 1] + [input[|input| - 1]];
    }
  }

  /** The receiving end of a filter's channel: what was sent, and whether it is closed. */
  class Sink {
    var lines: seq<string>
    var closed: bool

    constructor ()
      ensures lines == [] && !closed
    {
      lines, closed := [], false;
    }

    /** Sending on a closed channel panics in Go, so a push needs an open sink. */
    method Push(s: string)
      requires !closed
      modifies this
      ensures lines == old(lines) + [s] && !closed
    {
      lines := lines + [s];
    }

    /** Closing a closed channel panics in Go, so a sink is closed at most once. */
    method Close()
      requires !closed
      modifies this
      ensures closed && lines == old(lines)
    {
      closed := true;
    }
  }

  /** A filter: its patterns (`newFilter` copies them to byte slices) and the sink it feeds. */
  class LineFilter {
    const patterns: seq<string>
    const sink: Sink

    constructor (pats: seq<string>, sink: Sink)
      ensures patterns == pats && this.sink == sink
    {
      patterns, this.sink := pats, sink;
    }

    /** `filter.matches`: an early-return loop over the patterns. */
    method Matches(line: string) returns (b: bool)
      ensures b == MatchesAny(patterns, line)
    {
      if |patterns| == 0 {
        return true;
      }
      var i := 0;
      while i < |patterns|
        invariant 0 <= i <= |patterns|
        invariant forall k :: 0 <= k < i ==> !Contains(line, patterns[k])
      {
        if Contains(line, patterns[i]) {
          return true;
        }
        i := i + 1;
      }
      return false;
    }
  }

  /** The filters of a `slurp` feed pairwise distinct sinks (a shared sink would be closed twice). */
  predicate DistinctSinks(filters: seq<LineFilter>) {
    forall a, b :: 0 <= a < b < |filters| ==> filters[a].sink != filters[b].sink
  }

  /** One line offered to every filter, in filter order. */
  method Offer(line: string, filters: seq<LineFilter>)
    requires DistinctSinks(filters)
    requires forall a :: 0 <= a < |filters| ==> !filters[a].sink.closed
    modifies set a | 0 <= a < |filters| :: filters[a].sink
    ensures forall a :: 0 <= a < |filters| ==>
      !filters[a].sink.closed &&
      filters[a].sink.lines == old(filters[a].sink.lines) +
        (if MatchesAny(filters[a].patterns, line) then [line] else [])
  {
    var f := 0;
    while f < |filters|
      invariant 0 <= f <= |filters|
      invariant forall a :: 0 <= a < |filters| ==> !filters[a].sink.closed
      invariant forall a :: 0 <= a < f ==>
        filters[a].sink.lines == old(filters[a].sink.lines) +
          (if MatchesAny(filters[a].patterns, line) then [line] else [])
      invariant forall a :: f <= a < |filters| ==> filters[a].sink.lines == old(filters[a].sink.lines)
    {
      var m := filters[f].Matches(line);
      if m {
        filters[f].sink.Push(line);
      }
      f := f + 1;
    }
  }

  /** Every sink closed once, in filter order. */
  method CloseAll(filters: seq<LineFilter>)
    requires DistinctSinks(filters)
    requires forall a :: 0 <= a < |filters| ==> !filters[a].sink.closed
    modifies set a | 0 <= a < |filters| :: filters[a].sink
    ensures forall a :: 0 <= a < |filters| ==>
      filters[a].sink.closed && filters[a].sink.lines == old(filters[a].sink.lines)
  {
    var f := 0;
    while f < |filters|
      invariant 0 <= f <= |filters|
      invariant forall a :: 0 <= a < |filters| ==> filters[a].sink.lines == old(filters[a].sink.lines)
      invariant forall a :: 0 <= a < |filters| ==> (filters[a].sink.closed <==> a < f)
    {
      filters[f].sink.Close();
      f := f + 1;
    }
  }

  /**
   * `slurp`: every line is offered to every filter, each filter's sink gets
   * the lines it matches, in input order, and after the last line every sink
   * is closed, once.
   */
  method Slurp(input: seq<string>, filters: seq<LineFilter>)
    requires DistinctSinks(filters)
    requires forall a :: 0 <= a < |filters| ==> !filters[a].sink.closed
    modifies set a | 0 <= a < |filters| :: filters[a].sink
    ensures forall a :: 0 <= a < |filters| ==>
      filters[a].sink.closed &&
      filters[a].sink.lines == old(filters[a].sink.lines) + Selected(filters[a].patterns, input)
  {
    var n := 0;
    while n < |input|
      invariant 0 <= n <= |input|
      invariant forall a :: 0 <= a < |filters| ==>
        !filters[a].sink.closed &&
        filters[a].sink.lines == old(filters[a].sink.lines) + Selected(filters[a].patterns, input[..n])
    {
      assert input[..n + 1][..n] == input[..n];
      Offer(input[n], filters);
      n := n + 1;
    }
    assert input[..n] == input;
    CloseAll(filters);
  }
}
