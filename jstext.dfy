/**
 * The JavaScript string operations the chat box relies on, over sequences of
 * characters: `split` and `join` on a single separator character, `includes`
 * and `trim`.
 */
module JsText {

  /**
   * The characters `String.prototype.trim` removes: the ECMAScript WhiteSpace
   * code points (tab, vertical tab, form feed, the byte-order mark and the
   * space separators of Unicode category Zs) and its LineTerminator code points.
   */
  predicate IsWhitespace(c: char) {
    || c == '\t' || c == '\U{000B}' || c == '\U{000C}' || c == '\U{FEFF}'
    || c == ' ' || c == '\U{00A0}' || c == '\U{1680}'
    || ('\U{2000}' <= c <= '\U{200A}') || c == '\U{202F}' || c == '\U{205F}' || c == '\U{3000}'
    || c == '\n' || c == '\r' || c == '\U{2028}' || c == '\U{2029}'
  }

  predicate AllWhitespace(s: string) {
    forall i :: 0 <= i < |s| ==> IsWhitespace(s[i])
  }

  /** `s.split(sep)`: the maximal runs between occurrences of `sep`; "" splits into [""]. */
  function Split(s: string, sep: char): (r: seq<string>)
    ensures |r| >= 1
    ensures forall i :: 0 <= i < |r| ==> sep !in r[i]
    decreases |s|
  {
    if s == [] then [[]]
    else if s[0] == sep then [[]] + Split(s[1..], sep)
    else
      var rest := Split(s[1..], sep);
      [[s[0]] + rest[0]] + rest[1..]
  }

  /** `ws.join(sep)`: the elements with one `sep` between neighbours. */
  function Join(ws: seq<string>, sep: char): (r: string)
    ensures |ws| > 0 ==> ws[0] <= r
  {
    if |ws| == 0 then []
    else if |ws| == 1 then ws[0]
    else ws[0] + [sep] + Join(ws[1..], sep)
  }

  /** Joining back what was split restores the string. */
  lemma {:induction false} JoinSplit(s: string, sep: char)
    ensures Join(Split(s, sep), sep) == s
    decreases |s|
  {
    if s != [] {
      var rest := Split(s[1..], sep);
      JoinSplit(s[1..], sep);
      if s[0] == sep {
        assert ([[]] + rest)[1..] == rest;
      } else {
        JoinCons(s[0], rest, sep);
      }
      assert [s[0]] + s[1..] == s;
    }
  }

  lemma JoinCons(c: char, ws: seq<string>, sep: char)
    requires |ws| >= 1
    ensures Join([[c] + ws[0]] + ws[1..], sep) == [c] + Join(ws, sep)
  {
    var r := [[c] + ws[0]] + ws[1..];
    if |ws| > 1 {
      assert r[1..] == ws[1..];
    }
  }

  lemma {:induction false} SplitPrefix(w: string, sep: char, rest: string)
    requires sep !in w
    ensures Split(w + rest, sep) == [w + Split(rest, sep)[0]] + Split(rest, sep)[1..]
    decreases |w|
  {
    if w != [] {
      assert (w + rest)[0] == w[0];
      assert (w + rest)[1..] == w[1..] + rest;
      SplitPrefix(w[1..], sep, rest);
      assert [w[0]] + (w[1..] + Split(rest, sep)[0]) == w + Split(rest, sep)[0];
    } else {
      var parts := Split(rest, sep);
      assert w + rest == rest;
      assert w + parts[0] == parts[0];
      assert [parts[0]] + parts[1..] == parts;
    }
  }

  /** Splitting what was joined restores the elements, when none holds `sep`. */
  lemma {:induction false} SplitJoin(ws: seq<string>, sep: char)
    requires |ws| >= 1
    requires forall i :: 0 <= i < |ws| ==> sep !in ws[i]
    ensures Split(Join(ws, sep), sep) == ws
    decreases |ws|
  {
    if |ws| == 1 {
      SplitPrefix(ws[0], sep, []);
      assert ws[0] + [] == ws[0];
    } else {
      var tail := Join(ws[1..], sep);
      SplitJoin(ws[1..], sep);
      assert ws[0] + [sep] + tail == ws[0] + ([sep] + tail);
      SplitPrefix(ws[0], sep, [sep] + tail);
      assert ([sep] + tail)[1..] == tail;
      assert ws[0] + [] == ws[0];
      assert [ws[0]] + ws[1..] == ws;
    }
  }

  /** Joining one more element adds a separator and that element. */
  lemma {:induction false} JoinSnoc(ws: seq<string>, w: string, sep: char)
    ensures Join(ws + [w], sep) == if ws == [] then w else Join(ws, sep) + [sep] + w
    decreases |ws|
  {
    if |ws| == 0 {
      assert ws + [w] == [w];
    } else if |ws| == 1 {
      assert (ws + [w])[1..] == [w];
    } else {
      assert (ws + [w])[1..] == ws[1..] + [w];
      JoinSnoc(ws[1..], w, sep);
    }
  }

  /** `sub` occurs in `s` starting at index `i`. */
  predicate OccursAt(s: string, sub: string, i: int) {
    0 <= i && i + |sub| <= |s| && s[i..i + |sub|] == sub
  }

  /** `s.includes(sub)`: some index of `s` starts an occurrence of `sub`. */
  function Includes(s: string, sub: string): (r: bool)
    ensures r <==> exists i :: OccursAt(s, sub, i)
    decreases |s|
  {
    if |sub| <= |s| && s[..|sub|] == sub then
      assert OccursAt(s, sub, 0);
      true
    else if s == [] then
      assert forall i :: !OccursAt(s, sub, i);
      false
    else
      var r := Includes(s[1..], sub);
      OccursShift(s, sub);
      r
  }

  lemma OccursShift(s: string, sub: string)
    requires s != []
    requires !(|sub| <= |s| && s[..|sub|] == sub)
    ensures (exists i :: OccursAt(s, sub, i)) <==> (exists i :: OccursAt(s[1..], sub, i))
  {
    forall i | OccursAt(s, sub, i) ensures OccursAt(s[1..], sub, i - 1) {
      assert i != 0;
      assert s[1..][i - 1..i - 1 + |sub|] == s[i..i + |sub|];
    }
    forall i | OccursAt(s[1..], sub, i) ensures OccursAt(s, sub, i + 1) {
      assert s[1..][i..i + |sub|] == s[i + 1..i + 1 + |sub|];
    }
  }

  /** The number of whitespace characters `s` starts with. */
  function LeadingWhitespace(s: string): (n: nat)
    ensures n <= |s|
    ensures n < |s| ==> !IsWhitespace(s[n])
    decreases |s|
  {
    if s != [] && IsWhitespace(s[0]) then 1 + LeadingWhitespace(s[1..]) else 0
  }

  /** The number of whitespace characters `s` ends with. */
  function TrailingWhitespace(s: string): (n: nat)
    ensures n <= |s|
    ensures n < |s| ==> !IsWhitespace(s[|s| - n - 1])
    decreases |s|
  {
    if s != [] && IsWhitespace(s[|s| - 1]) then 1 + TrailingWhitespace(s[..|s| - 1]) else 0
  }

  lemma {:induction false} LeadingAllWhitespace(s: string, k: nat)
    requires k < LeadingWhitespace(s)
    ensures IsWhitespace(s[k])
    decreases |s|
  {
    if k > 0 {
      LeadingAllWhitespace(s[1..], k - 1);
    }
  }

  lemma {:induction false} TrailingAllWhitespace(s: string, k: nat)
    requires |s| - TrailingWhitespace(s) <= k < |s|
    ensures IsWhitespace(s[k])
    decreases |s|
  {
    if k < |s| - 1 {
      TrailingAllWhitespace(s[..|s| - 1], k);
    }
  }

  /**
   * `s.trim()`: leading and trailing whitespace removed; the result is empty
   * exactly when `s` is whitespace only.
   */
  function Trim(s: string): (r: string)
    ensures |r| <= |s|
    ensures r == [] <==> AllWhitespace(s)
    ensures r == [] || (!IsWhitespace(r[0]) && !IsWhitespace(r[|r| - 1]))
  {
    var front := LeadingWhitespace(s);
    var rest := s[front..];
    var r := rest[..|rest| - TrailingWhitespace(rest)];
    TrimEmpty(s);
    r
  }

  lemma TrimEmpty(s: string)
    ensures var front := LeadingWhitespace(s);
      var rest := s[front..];
      rest[..|rest| - TrailingWhitespace(rest)] == [] <==> AllWhitespace(s)
  {
    var front := LeadingWhitespace(s);
    if front == |s| {
      forall k | 0 <= k < |s| ensures IsWhitespace(s[k]) {
        LeadingAllWhitespace(s, k);
      }
    } else {
      var rest := s[front..];
      assert rest[0] == s[front];
      assert TrailingWhitespace(rest) < |rest| by {
        if TrailingWhitespace(rest) == |rest| {
          TrailingAllWhitespace(rest, 0);
        }
      }
    }
  }

  /**
   * The trimmed string is a slice of the original with only whitespace cut
   * away on either side.
   */
  lemma TrimIsSlice(s: string) returns (i: nat)
    ensures i + |Trim(s)| <= |s| && s[i..i + |Trim(s)|] == Trim(s)
    ensures AllWhitespace(s[..i]) && AllWhitespace(s[i + |Trim(s)|..])
  {
    i := LeadingWhitespace(s);
    var rest := s[i..];
    var n := |rest| - TrailingWhitespace(rest);
    assert Trim(s) == rest[..n];
    var before, after := s[..i], s[i + n..];
    assert after == rest[n..];
    forall k | 0 <= k < |before| ensures IsWhitespace(before[k]) {
      LeadingAllWhitespace(s, k);
    }
    forall k | 0 <= k < |after| ensures IsWhitespace(after[k]) {
      assert after[k] == rest[n + k];
      TrailingAllWhitespace(rest, n + k);
    }
  }

  /** Trimming twice is trimming once. */
  lemma TrimIdempotent(s: string)
    ensures Trim(Trim(s)) == Trim(s)
  {
    var r := Trim(s);
    if r != [] {
      assert LeadingWhitespace(r) == 0;
      assert TrailingWhitespace(r) == 0;
      assert r[0..][..|r|] == r;
    }
  }
}
