/**
 * The few operations of the C++ standard library that the firmware relies on:
 * `std::string::find`, `substr`, and reading a text file line by line with
 * `std::getline`. Strings are sequences of characters.
 */
module StdString {

  import opened Wrappers

  /** `pat` occurs in `s` starting at index `k`. */
  predicate OccursAt(s: string, pat: string, k: nat)
  {
    k + |pat| <= |s| && s[k..k + |pat|] == pat
  }

  /** `pat` occurs nowhere in `s` at or after index `from`. */
  ghost predicate AbsentFrom(s: string, pat: string, from: nat)
  {
    forall k: nat :: from <= k ==> !OccursAt(s, pat, k)
  }

  /**
   * `s.find(pat, from)`: the first index at or after `from` where `pat`
   * occurs, or `None` for `std::string::npos`.
   */
  function Find(s: string, pat: string, from: nat): (r: Option<nat>)
    decreases |s| - from
    ensures r.Some? ==> from <= r.value && OccursAt(s, pat, r.value)
    ensures r.Some? ==> forall k: nat :: from <= k < r.value ==> !OccursAt(s, pat, k)
    ensures r.None? <==> AbsentFrom(s, pat, from)
  {
    if from + |pat| > |s| then
      assert AbsentFrom(s, pat, from);
      None
    else if s[from..from + |pat|] == pat then
      Some(from)
    else
      var r := Find(s, pat, from + 1);
      assert !OccursAt(s, pat, from);
      assert r.None? ==> AbsentFrom(s, pat, from) by {
        if r.None? {
          forall k: nat | from <= k ensures !OccursAt(s, pat, k) {
            if k > from { assert AbsentFrom(s, pat, from + 1); }
          }
        }
      }
      r
  }

  /** `line.find(pat) != std::string::npos`. */
  predicate Contains(s: string, pat: string)
  {
    Find(s, pat, 0).Some?
  }

  /** Index of the first newline in `t`, or `|t|` when there is none. */
  function LineEnd(t: string): (k: nat)
    ensures k <= |t|
    ensures k < |t| ==> t[k] == '\n'
    ensures forall j :: 0 <= j < k ==> t[j] != '\n'
  {
    if t == [] then 0
    else if t[0] == '\n' then 0
    else 1 + LineEnd(t[1..])
  }

  /**
   * The lines successive `std::getline` calls return on a stream holding
   * `t`: text up to each newline, the newline dropped; a last line without
   * a newline is still returned, and nothing is returned after a final
   * newline.
   */
  function Lines(t: string): (ls: seq<string>)
    decreases |t|
    ensures forall i :: 0 <= i < |ls| ==> '\n' !in ls[i]
    ensures t == [] <==> ls == []
  {
    if t == [] then []
    else
      var k := LineEnd(t);
      assert '\n' !in t[..k] by {
        forall j | 0 <= j < k ensures t[..k][j] != '\n' { }
      }
      if k == |t| then [t] else [t[..k]] + Lines(t[k + 1..])
  }

  /** What a line-by-line read of a file yields; a file that does not open yields nothing. */
  function FileLines(file: Option<string>): (ls: seq<string>)
    ensures file.None? ==> ls == []
    ensures file.Some? ==> ls == Lines(file.value)
  {
    match file
    case None => []
    case Some(t) => Lines(t)
  }

  /** The text written by streaming each line followed by `'\n'`. */
  function UnLines(ls: seq<string>): (t: string)
    ensures t == [] <==> ls == []
  {
    if ls == [] then [] else ls[0] + "\n" + UnLines(ls[1..])
  }

  /** Writing lines one after another writes their texts one after another. */
  lemma {:induction false} UnLinesAppend(a: seq<string>, b: seq<string>)
    ensures UnLines(a + b) == UnLines(a) + UnLines(b)
    decreases |a|
  {
    if a == [] {
      assert a + b == b;
    } else {
      assert (a + b)[1..] == a[1..] + b;
      UnLinesAppend(a[1..], b);
    }
  }

  lemma {:induction false} LineEndOf(line: string, rest: string)
    requires '\n' !in line
    ensures LineEnd(line + "\n" + rest) == |line|
    decreases |line|
  {
    if line != [] {
      assert (line + "\n" + rest)[1..] == line[1..] + "\n" + rest;
      LineEndOf(line[1..], rest);
    }
  }

  /** `getline` returns a newline-free line and goes on after its newline. */
  lemma LinesCons(line: string, rest: string)
    requires '\n' !in line
    ensures Lines(line + "\n" + rest) == [line] + Lines(rest)
  {
    var t := line + "\n" + rest;
    LineEndOf(line, rest);
    assert t[..|line|] == line;
    assert t[|line| + 1..] == rest;
  }

  /** Reading back, line by line, lines written one per line yields them unchanged. */
  lemma {:induction false} LinesOfUnLines(ls: seq<string>)
    requires forall i :: 0 <= i < |ls| ==> '\n' !in ls[i]
    ensures Lines(UnLines(ls)) == ls
    decreases |ls|
  {
    if ls != [] {
      LinesOfUnLines(ls[1..]);
      LinesCons(ls[0], UnLines(ls[1..]));
    }
  }

  /** Some line of `ls` contains `pat`. */
  predicate InSomeLine(ls: seq<string>, pat: string)
  {
    exists i :: 0 <= i < |ls| && Contains(ls[i], pat)
  }

  /**
   * A pattern without a newline that occurs in a text occurs in one of
   * the text's lines: splitting with `getline` never cuts it.
   */
  lemma {:induction false} OccurrenceLiesInALine(t: string, pat: string, pos: nat)
    requires '\n' !in pat && pat != []
    requires OccursAt(t, pat, pos)
    ensures InSomeLine(Lines(t), pat)
    decreases |t|
  {
    var k := LineEnd(t);
    OccurrenceAvoidsNewline(t, pat, pos);
    if pos + |pat| <= k {
      OccursInFirstLine(t, pat, pos);
    } else {
      OccursInRest(t, pat, pos);
      OccurrenceLiesInALine(t[k + 1..], pat, pos - k - 1);
      OccursInLaterLine(t, pat);
    }
  }

  /** An occurrence of a pattern without a newline ends before the first newline or starts after it. */
  lemma OccurrenceAvoidsNewline(t: string, pat: string, pos: nat)
    requires '\n' !in pat
    requires OccursAt(t, pat, pos)
    ensures pos + |pat| <= LineEnd(t) || LineEnd(t) < pos
  {
    var k := LineEnd(t);
    OccurrenceChar(t, pat, pos, k);
  }

  /** An occurrence after the first newline is an occurrence in the text after it. */
  lemma OccursInRest(t: string, pat: string, pos: nat)
    requires OccursAt(t, pat, pos) && LineEnd(t) < pos
    ensures OccursAt(t[LineEnd(t) + 1..], pat, pos - LineEnd(t) - 1)
  {
    var k := LineEnd(t);
    var rest := t[k + 1..];
    assert rest[pos - k - 1..pos - k - 1 + |pat|] == t[pos..pos + |pat|];
  }

  lemma OccursInFirstLine(t: string, pat: string, pos: nat)
    requires pat != [] && OccursAt(t, pat, pos) && pos + |pat| <= LineEnd(t)
    ensures InSomeLine(Lines(t), pat)
  {
    LinesSplit(t);
    var line := t[..LineEnd(t)];
    assert line[pos..pos + |pat|] == t[pos..pos + |pat|];
    FindsOccurrence(line, pat, pos);
  }

  lemma OccursInLaterLine(t: string, pat: string)
    requires LineEnd(t) < |t|
    requires InSomeLine(Lines(t[LineEnd(t) + 1..]), pat)
    ensures InSomeLine(Lines(t), pat)
  {
    var rest := t[LineEnd(t) + 1..];
    LinesSplit(t);
    var i :| 0 <= i < |Lines(rest)| && Contains(Lines(rest)[i], pat);
    assert Lines(t)[i + 1] == Lines(rest)[i];
  }

  /** A text followed by `pat` holds `pat` right after the text. */
  lemma OccursAfter(s: string, pat: string)
    ensures OccursAt(s + pat, pat, |s|)
  {
    assert (s + pat)[|s|..|s| + |pat|] == pat;
  }

  /** An occurrence stays where it is when text is appended. */
  lemma OccursInExtension(s: string, more: string, pat: string, k: nat)
    requires OccursAt(s, pat, k)
    ensures OccursAt(s + more, pat, k)
  {
    assert (s + more)[k..k + |pat|] == s[k..k + |pat|];
  }

  /** A pattern that occurs somewhere is found. */
  lemma FindsOccurrence(s: string, pat: string, pos: nat)
    requires OccursAt(s, pat, pos)
    ensures Contains(s, pat)
  {
    assert !AbsentFrom(s, pat, 0);
  }

  /** Inside an occurrence, the text holds the pattern's characters. */
  lemma OccurrenceChar(t: string, pat: string, pos: nat, j: nat)
    ensures OccursAt(t, pat, pos) && pos <= j < pos + |pat| ==> t[j] == pat[j - pos]
  {
    if OccursAt(t, pat, pos) && pos <= j < pos + |pat| {
      assert t[pos..pos + |pat|][j - pos] == t[j];
    }
  }

  /** The first line runs up to the first newline; the others are the lines of what follows it. */
  lemma LinesSplit(t: string)
    requires t != []
    ensures Lines(t) != [] && Lines(t)[0] == t[..LineEnd(t)]
    ensures LineEnd(t) < |t| ==> Lines(t)[1..] == Lines(t[LineEnd(t) + 1..])
  {
    if LineEnd(t) == |t| {
      assert t[..|t|] == t;
    }
  }
}
