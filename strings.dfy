/**
 * The JavaScript string operations the service relies on: `String.prototype.split`
 * with a one-character separator and with the regular expression that matches a
 * comma together with the whitespace around it, `startsWith`, and `Array.prototype.join`.
 */
module JsStrings {

  /** JavaScript's `\s` class: the WhiteSpace and LineTerminator code points of ECMAScript. */
  predicate IsSpace(c: char) {
    || c == ' ' || c == '\t' || c == '\n' || c == '\r'
    || c == '\U{000B}' || c == '\U{000C}' || c == '\U{00A0}' || c == '\U{1680}'
    || ('\U{2000}' <= c <= '\U{200A}')
    || c == '\U{2028}' || c == '\U{2029}' || c == '\U{202F}' || c == '\U{205F}'
    || c == '\U{3000}' || c == '\U{FEFF}'
  }

  /** `s.startsWith(p)` */
  predicate StartsWith(s: string, p: string) {
    p <= s
  }

  /** `s` with its leading `\s` characters removed. */
  function TrimStart(s: string): (r: string)
    ensures |r| <= |s| && r == s[|s| - |r|..]
    ensures r == [] || !IsSpace(r[0])
  {
    if s != [] && IsSpace(s[0]) then TrimStart(s[1..]) else s
  }

  /** `TrimStart` removes whitespace only. */
  lemma {:induction false} TrimStartRemovesSpaces(s: string)
    ensures forall i :: 0 <= i < |s| - |TrimStart(s)| ==> IsSpace(s[i])
  {
    if s != [] && IsSpace(s[0]) {
      TrimStartRemovesSpaces(s[1..]);
      forall i | 1 <= i < |s| - |TrimStart(s)| ensures IsSpace(s[i]) {
        assert s[i] == s[1..][i - 1];
      }
    }
  }

  /** `s` with its trailing `\s` characters removed. */
  function TrimEnd(s: string): (r: string)
    ensures |r| <= |s| && r == s[..|r|]
    ensures r == [] || !IsSpace(r[|r| - 1])
  {
    if s != [] && IsSpace(s[|s| - 1]) then
      var r := TrimEnd(s[..|s| - 1]);
      assert s[..|s| - 1][..|r|] == s[..|r|];
      r
    else s
  }

  /** `TrimEnd` removes whitespace only. */
  lemma {:induction false} TrimEndRemovesSpaces(s: string)
    ensures forall i :: |TrimEnd(s)| <= i < |s| ==> IsSpace(s[i])
  {
    if s != [] && IsSpace(s[|s| - 1]) {
      TrimEndRemovesSpaces(s[..|s| - 1]);
    }
  }

  /** `s.split(sep)` for a one-character separator. */
  function Split(s: string, sep: char): (parts: seq<string>)
    ensures |parts| >= 1
    ensures forall i :: 0 <= i < |parts| ==> sep !in parts[i]
    ensures sep in s <==> |parts| >= 2
  {
    if s == [] then [[]]
    else
      var rest := Split(s[1..], sep);
      if s[0] == sep then [[]] + rest
      else [[s[0]] + rest[0]] + rest[1..]
  }

  /** How many times `c` occurs in `s`. */
  function Occurrences(s: string, c: char): nat {
    if s == [] then 0 else (if s[0] == c then 1 else 0) + Occurrences(s[1..], c)
  }

  /** A split has one more part than the string has separators. */
  lemma {:induction false} SplitCount(s: string, sep: char)
    ensures |Split(s, sep)| == Occurrences(s, sep) + 1
  {
    if s != [] {
      SplitCount(s[1..], sep);
    }
  }

  /** `parts.join(sep)` */
  function Join(parts: seq<string>, sep: string): string {
    if |parts| == 0 then ""
    else if |parts| == 1 then parts[0]
    else parts[0] + sep + Join(parts[1..], sep)
  }

  /** Splitting and joining back on the same separator gives the string back. */
  lemma {:induction false} JoinSplit(s: string, sep: char)
    ensures Join(Split(s, sep), [sep]) == s
  {
    if s != [] {
      JoinSplit(s[1..], sep);
      var rest := Split(s[1..], sep);
      if s[0] == sep {
        assert Split(s, sep) == [[]] + rest;
        assert ([[]] + rest)[1..] == rest;
      } else {
        var parts := [[s[0]] + rest[0]] + rest[1..];
        assert parts[1..] == rest[1..];
        if |rest| > 1 {
          assert rest == [rest[0]] + rest[1..];
          assert Join(rest, [sep]) == rest[0] + [sep] + Join(rest[1..], [sep]);
        }
        assert s == [s[0]] + s[1..];
      }
    }
  }

  /** A string without the separator is one part. */
  lemma {:induction false} SplitWithout(p: string, sep: char)
    requires sep !in p
    ensures Split(p, sep) == [p]
  {
    if p != [] {
      SplitWithout(p[1..], sep);
      assert p == [p[0]] + p[1..];
    }
  }

  /** Splitting `p + sep + t`, where `p` has no separator, yields `p` and then the parts of `t`. */
  lemma {:induction false} SplitAfterPart(p: string, sep: char, t: string)
    requires sep !in p
    ensures Split(p + [sep] + t, sep) == [p] + Split(t, sep)
  {
    var s := p + [sep] + t;
    if p == [] {
      assert s[1..] == t;
    } else {
      assert s[1..] == p[1..] + [sep] + t;
      SplitAfterPart(p[1..], sep, t);
      assert [p[0]] + p[1..] == p;
    }
  }

  /** Joining parts that do not contain the separator and splitting again gives the parts back. */
  lemma {:induction false} SplitJoin(parts: seq<string>, sep: char)
    requires |parts| >= 1
    requires forall i :: 0 <= i < |parts| ==> sep !in parts[i]
    ensures Split(Join(parts, [sep]), sep) == parts
  {
    if |parts| == 1 {
      SplitWithout(parts[0], sep);
    } else {
      SplitJoin(parts[1..], sep);
      SplitAfterPart(parts[0], sep, Join(parts[1..], [sep]));
      assert parts == [parts[0]] + parts[1..];
    }
  }

  /**
   * One part of a comma split with the whitespace that touches a comma removed:
   * the leading whitespace unless it is the first part, the trailing whitespace
   * unless it is the last.
   */
  function TrimAtCommas(part: string, afterComma: bool, beforeComma: bool): (item: string)
    ensures forall c :: c in item ==> c in part
    ensures afterComma && item != [] ==> !IsSpace(item[0])
    ensures beforeComma && item != [] ==> !IsSpace(item[|item| - 1])
  {
    var p := if afterComma then TrimStart(part) else part;
    var item := if beforeComma then TrimEnd(p) else p;
    SliceMembers(part, |part| - |p|, |part|);
    SliceMembers(p, 0, |item|);
    item
  }

  /** Every character of a slice is a character of the string. */
  lemma SliceMembers(s: string, i: nat, j: nat)
    requires i <= j <= |s|
    ensures forall c :: c in s[i..j] ==> c in s
  {
    forall c | c in s[i..j] ensures c in s {
      var k :| 0 <= k < j - i && s[i..j][k] == c;
      assert s[i + k] == c;
    }
  }

  /** A string made of whitespace only. */
  predicate AllSpace(w: string) {
    forall i :: 0 <= i < |w| ==> IsSpace(w[i])
  }

  /** `TrimStart` takes a whitespace run off the front. */
  lemma TrimStartSplits(s: string)
    ensures s == s[..|s| - |TrimStart(s)|] + TrimStart(s)
    ensures AllSpace(s[..|s| - |TrimStart(s)|])
  {
    var w := s[..|s| - |TrimStart(s)|];
    TrimStartRemovesSpaces(s);
    forall i | 0 <= i < |w| ensures IsSpace(w[i]) {
      assert w[i] == s[i];
    }
  }

  /** `TrimEnd` takes a whitespace run off the back. */
  lemma TrimEndSplits(s: string)
    ensures s == TrimEnd(s) + s[|TrimEnd(s)|..]
    ensures AllSpace(s[|TrimEnd(s)|..])
  {
    var w := s[|TrimEnd(s)|..];
    TrimEndRemovesSpaces(s);
    forall i | 0 <= i < |w| ensures IsSpace(w[i]) {
      assert w[i] == s[|TrimEnd(s)| + i];
    }
  }

  /**
   * A trimmed part is the part with a whitespace run taken off each side, the run before it
   * empty unless it follows a comma and the run after it empty unless a comma follows it.
   */
  lemma TrimAtCommasParts(part: string, afterComma: bool, beforeComma: bool) returns (lead: string, trail: string)
    ensures part == lead + TrimAtCommas(part, afterComma, beforeComma) + trail
    ensures AllSpace(lead) && AllSpace(trail)
    ensures !afterComma ==> lead == []
    ensures !beforeComma ==> trail == []
  {
    var p := if afterComma then TrimStart(part) else part;
    lead := [];
    if afterComma {
      TrimStartSplits(part);
      lead := part[..|part| - |p|];
    }
    assert part == lead + p;
    trail := [];
    if beforeComma {
      TrimEndSplits(p);
      trail := p[|TrimEnd(p)|..];
    }
    var item := TrimAtCommas(part, afterComma, beforeComma);
    assert p == item + trail;
    Regroup(part, lead, item, trail);
  }

  lemma Regroup(s: string, a: string, b: string, c: string)
    requires s == a + (b + c)
    ensures s == a + b + c
  {
  }

  /**
   * Each item of `SplitList(s)` is the matching part of the comma split with only the
   * whitespace that touches a comma removed: nothing before the first item, nothing
   * after the last one.
   */
  lemma SplitListItem(s: string, i: nat) returns (lead: string, trail: string)
    requires i < |Split(s, ',')|
    ensures i < |SplitList(s)|
    ensures Split(s, ',')[i] == lead + SplitList(s)[i] + trail
    ensures AllSpace(lead) && AllSpace(trail)
    ensures i == 0 ==> lead == []
    ensures i == |Split(s, ',')| - 1 ==> trail == []
  {
    var parts := Split(s, ',');
    if ',' !in s {
      SplitWithout(s, ',');
      lead, trail := [], [];
      assert parts[i] == s == SplitList(s)[i];
      assert parts[i] == lead + SplitList(s)[i] + trail;
    } else {
      assert SplitList(s)[i] == TrimAtCommas(parts[i], i > 0, i < |parts| - 1);
      lead, trail := TrimAtCommasParts(parts[i], i > 0, i < |parts| - 1);
    }
  }

  /** A list item that `SplitList` gives back unchanged: no comma, no whitespace at either end. */
  predicate IsListItem(item: string) {
    ',' !in item && (item == [] || (!IsSpace(item[0]) && !IsSpace(item[|item| - 1])))
  }

  /**
   * `s.split` on the regular expression "optional whitespace, comma, optional
   * whitespace": every match is one comma together with the whole whitespace run on
   * each side of it, so the result is the comma split with those runs trimmed.
   */
  function SplitList(s: string): (items: seq<string>)
    ensures |items| == |Split(s, ',')| >= 1
    ensures forall i :: 0 <= i < |items| ==> ',' !in items[i]
    ensures forall i :: 0 < i < |items| && items[i] != [] ==> !IsSpace(items[i][0])
    ensures forall i :: 0 <= i < |items| - 1 && items[i] != [] ==> !IsSpace(items[i][|items[i]| - 1])
    ensures ',' !in s ==> items == [s]
  {
    var parts := Split(s, ',');
    if ',' !in s then SplitWithout(s, ','); [s]
    else
      var items := seq(|parts|, i requires 0 <= i < |parts| => TrimAtCommas(parts[i], i > 0, i < |parts| - 1));
      assert forall i :: 0 <= i < |items| ==> ',' !in items[i] by {
        forall i | 0 <= i < |items| ensures ',' !in items[i] {
          assert ',' !in parts[i];
        }
      }
      items
  }

  /** Trimming leaves a list item as it is. */
  lemma ListItemUntrimmed(part: string, afterComma: bool, beforeComma: bool)
    requires IsListItem(part)
    ensures TrimAtCommas(part, afterComma, beforeComma) == part
  {
    assert TrimStart(part) == part;
    assert TrimEnd(part) == part;
  }

  /** Joining list items with commas and splitting with `SplitList` gives the items back. */
  lemma SplitListJoin(items: seq<string>)
    requires |items| >= 1
    requires forall i :: 0 <= i < |items| ==> IsListItem(items[i])
    ensures SplitList(Join(items, ",")) == items
  {
    var s := Join(items, ",");
    SplitJoin(items, ',');
    if ',' in s {
      var parts := Split(s, ',');
      forall i | 0 <= i < |parts|
        ensures TrimAtCommas(parts[i], i > 0, i < |parts| - 1) == items[i]
      {
        ListItemUntrimmed(parts[i], i > 0, i < |parts| - 1);
      }
    }
  }
}
