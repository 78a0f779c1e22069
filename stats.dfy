/**
  The book statistics helpers (stats.py): the word count of `str.split()`, the
  character histogram of the lower-cased text, and that histogram as a list sorted
  by count, largest first, with ties left in first-occurrence order.
*/
module Stats {
  import opened Text

  // ---------------------------------------------------------------- words

  /** The length of the run of non-whitespace characters `s` starts with. */
  function RunLength(s: string): (n: nat)
    ensures n <= |s|
    ensures forall k :: 0 <= k < n ==> !IsSpace(s[k])
    ensures n < |s| ==> IsSpace(s[n])
    decreases |s|
  {
    if |s| == 0 || IsSpace(s[0]) then 0 else 1 + RunLength(s[1..])
  }

  /** `s.split()`: the maximal runs of non-whitespace characters, in order. */
  function Words(s: string): (r: seq<string>)
    ensures forall w :: w in r ==> |w| > 0 && forall k :: 0 <= k < |w| ==> !IsSpace(w[k])
    decreases |s|
  {
    if |s| == 0 then []
    else if IsSpace(s[0]) then Words(s[1..])
    else
      var n := RunLength(s);
      [s[..n]] + Words(s[n..])
  }

  /** `get_book_word_count`: the number of words `split()` finds. */
  function WordCount(text: string): nat {
    |Words(text)|
  }

  /** The number of positions of `s` where a word begins: a non-whitespace character
      that is first or follows whitespace. `afterSpace` says whether the character
      before `s` was whitespace, or there was none. */
  function WordStarts(s: string, afterSpace: bool): nat
    decreases |s|
  {
    if |s| == 0 then 0
    else (if afterSpace && !IsSpace(s[0]) then 1 else 0) + WordStarts(s[1..], IsSpace(s[0]))
  }

  /** Inside a run no word begins: from any position after the run's first
      character, the count is the one after the run. */
  lemma {:induction false} InsideRun(s: string, k: nat)
    requires 1 <= k <= RunLength(s)
    ensures WordStarts(s[k..], false) == WordStarts(s[RunLength(s)..], true)
    decreases RunLength(s) - k
  {
    var n := RunLength(s);
    if k < n {
      assert s[k..][1..] == s[k + 1..];
      InsideRun(s, k + 1);
    } else if n < |s| {
      assert s[n..][1..] == s[n + 1..];
    }
  }

  /** The word count is the number of maximal non-whitespace runs. */
  lemma {:induction false} WordCountIsWordStarts(s: string)
    ensures WordCount(s) == WordStarts(s, true)
    decreases |s|
  {
    if |s| > 0 {
      if IsSpace(s[0]) {
        WordCountIsWordStarts(s[1..]);
      } else {
        var n := RunLength(s);
        WordCountIsWordStarts(s[n..]);
        InsideRun(s, 1);
      }
    }
  }

  /** Empty or all-whitespace text has no words, and only such text. */
  lemma {:induction false} NoWordsIffBlank(s: string)
    ensures WordCount(s) == 0 <==> Blank(s)
    decreases |s|
  {
    if |s| > 0 {
      if IsSpace(s[0]) {
        NoWordsIffBlank(s[1..]);
        if Blank(s[1..]) {
          forall i | 0 <= i < |s| ensures IsSpace(s[i]) {
            if i > 0 { assert s[i] == s[1..][i - 1]; }
          }
        }
      }
    }
  }

  // ---------------------------------------------------------------- lower case

  /** `c.lower()` for the ASCII letters; every other character is kept. */
  function LowerChar(c: char): (r: char)
    ensures !('A' <= r <= 'Z')
    ensures r == c || ('A' <= c <= 'Z' && r as int == c as int + 32)
  {
    if 'A' <= c <= 'Z' then (c as int + 32) as char else c
  }

  /** `s.lower()`, character by character. */
  function Lower(s: string): string {
    seq(|s|, i requires 0 <= i < |s| => LowerChar(s[i]))
  }

  // ---------------------------------------------------------------- histogram

  /** A `dict` from characters to counts: its keys in insertion order, and the counts. */
  datatype Histogram = Histogram(keys: seq<char>, counts: map<char, nat>)

  /** The keys are pairwise different. */
  predicate Distinct(keys: seq<char>) {
    forall i, j :: 0 <= i < j < |keys| ==> keys[i] != keys[j]
  }

  /** The dictionary after the counting loop has seen `s`. */
  function Tally(s: string): (h: Histogram)
    ensures forall c :: c in h.keys <==> c in h.counts
    ensures forall c :: c in h.counts ==> c in s
    decreases |s|
  {
    if |s| == 0 then Histogram([], map[]) else Add(Tally(s[..|s| - 1]), s[|s| - 1])
  }

  /** One step of the counting loop: a new character is inserted with count 1, a
      known one incremented. */
  function Add(h: Histogram, c: char): Histogram {
    if c in h.counts then Histogram(h.keys, h.counts[c := h.counts[c] + 1])
    else Histogram(h.keys + [c], h.counts[c := 1])
  }

  /** The body of the counting loop: insert a new character with count 1, or
      increment a known one. */
  method CountOne(h: Histogram, ch: char) returns (r: Histogram)
    ensures r == Add(h, ch)
  {
    if ch !in h.counts {
      r := Histogram(h.keys + [ch], h.counts[ch := 1]);
    } else {
      r := Histogram(h.keys, h.counts[ch := h.counts[ch] + 1]);
    }
  }

  /** Counting one more character is one step of the loop. */
  lemma TallyStep(s: string, i: nat)
    requires i < |s|
    ensures Tally(s[..i + 1]) == Add(Tally(s[..i]), s[i])
  {
    assert s[..i + 1][..i] == s[..i];
  }

  /** `get_book_character_count`: counts each character of the lower-cased text. */
  method CharacterCount(text: string) returns (h: Histogram)
    ensures h == Tally(Lower(text))
  {
    var lowered := Lower(text);
    h := Histogram([], map[]);
    var i := 0;
    while i < |lowered|
      invariant 0 <= i <= |lowered|
      invariant h == Tally(lowered[..i])
    {
      h := CountOne(h, lowered[i]);
      TallyStep(lowered, i);
      i := i + 1;
    }
    assert lowered[..i] == lowered;
  }

  /** The position of the first occurrence of `c` in `s`. */
  function First(s: string, c: char): (p: nat)
    requires c in s
    ensures p < |s| && s[p] == c && c !in s[..p]
  {
    if s[0] == c then 0 else 1 + First(s[1..], c)
  }

  /** Appending keeps the first occurrence of a character already present. */
  lemma {:induction false} FirstOfExtended(s: string, x: char, c: char)
    requires c in s
    ensures First(s + [x], c) == First(s, c)
  {
    if s[0] != c {
      assert (s + [x])[1..] == s[1..] + [x];
      FirstOfExtended(s[1..], x, c);
    }
  }

  /** The keys are exactly the characters of `s`, each listed once. */
  lemma {:induction false} TallyKeys(s: string)
    ensures forall c :: c in Tally(s).keys <==> c in s
    ensures Distinct(Tally(s).keys)
    decreases |s|
  {
    if |s| > 0 {
      var t := s[..|s| - 1];
      assert s == t + [s[|s| - 1]];
      TallyKeys(t);
    }
  }

  /** `h.get(c, 0)`: the count of `c`, or 0 when it is not a key. */
  function CountOf(h: Histogram, c: char): nat {
    if c in h.counts then h.counts[c] else 0
  }

  lemma AddCounts(h: Histogram, c: char, m: multiset<char>)
    requires forall k :: CountOf(h, k) == m[k]
    ensures forall k :: CountOf(Add(h, c), k) == (m + multiset{c})[k]
  {
  }

  /** Each character is counted as often as it occurs, so every key at least once. */
  lemma {:induction false} TallyOccurrences(s: string)
    ensures forall c :: CountOf(Tally(s), c) == multiset(s)[c]
    ensures forall c :: c in Tally(s).counts ==> Tally(s).counts[c] >= 1
    decreases |s|
  {
    if |s| > 0 {
      var t := s[..|s| - 1];
      var c := s[|s| - 1];
      assert s == t + [c];
      assert multiset(s) == multiset(t) + multiset{c};
      TallyOccurrences(t);
      AddCounts(Tally(t), c, multiset(t));
    }
    forall k | k in Tally(s).counts ensures Tally(s).counts[k] >= 1 {
      assert k in s;
      assert CountOf(Tally(s), k) == multiset(s)[k];
    }
  }

  /** The keys are listed in order of first occurrence. */
  lemma {:induction false} TallyOrder(s: string)
    ensures forall i, j :: 0 <= i < j < |Tally(s).keys| ==>
              First(s, Tally(s).keys[i]) < First(s, Tally(s).keys[j])
    decreases |s|
  {
    if |s| > 0 {
      var t := s[..|s| - 1];
      var c := s[|s| - 1];
      assert s == t + [c];
      TallyOrder(t);
      TallyKeys(t);
      var h := Tally(t);
      forall k | k in h.keys ensures First(s, k) == First(t, k) {
        FirstOfExtended(t, c, k);
      }
      if c !in h.counts {
        forall k | k in h.keys ensures First(s, k) < First(s, c) {
          assert c !in t;
        }
      }
    }
  }

  /** The sum of the counts of `keys`. */
  function SumOver(keys: seq<char>, counts: map<char, nat>): nat
    requires forall k :: k in keys ==> k in counts
  {
    if |keys| == 0 then 0 else SumOver(keys[..|keys| - 1], counts) + counts[keys[|keys| - 1]]
  }

  lemma {:induction false} SumUpdateOutside(keys: seq<char>, counts: map<char, nat>, c: char, v: nat)
    requires forall k :: k in keys ==> k in counts
    requires c !in keys
    ensures SumOver(keys, counts[c := v]) == SumOver(keys, counts)
  {
    if |keys| > 0 {
      SumUpdateOutside(keys[..|keys| - 1], counts, c, v);
    }
  }

  lemma {:induction false} SumIncrement(keys: seq<char>, counts: map<char, nat>, c: char)
    requires forall k :: k in keys ==> k in counts
    requires Distinct(keys) && c in keys
    ensures SumOver(keys, counts[c := counts[c] + 1]) == SumOver(keys, counts) + 1
  {
    var init := keys[..|keys| - 1];
    if keys[|keys| - 1] == c {
      assert c !in init;
      SumUpdateOutside(init, counts, c, counts[c] + 1);
    } else {
      SumIncrement(init, counts, c);
    }
  }

  /** A step of the loop adds one to the total of the counts. */
  lemma SumAdd(h: Histogram, c: char)
    requires forall k :: k in h.keys <==> k in h.counts
    requires Distinct(h.keys)
    ensures forall k :: k in Add(h, c).keys ==> k in Add(h, c).counts
    ensures SumOver(Add(h, c).keys, Add(h, c).counts) == SumOver(h.keys, h.counts) + 1
  {
    if c in h.counts {
      SumIncrement(h.keys, h.counts, c);
    } else {
      var keys := h.keys + [c];
      assert keys[..|keys| - 1] == h.keys;
      SumUpdateOutside(h.keys, h.counts, c, 1);
    }
  }

  /** The counts add up to the length of the text. */
  lemma {:induction false} TallySum(s: string)
    ensures SumOver(Tally(s).keys, Tally(s).counts) == |s|
    decreases |s|
  {
    if |s| > 0 {
      var t := s[..|s| - 1];
      TallySum(t);
      TallyKeys(t);
      SumAdd(Tally(t), s[|s| - 1]);
    }
  }

  /** `get_book_character_count(text)`: no key is an upper-case ASCII letter, and the
      counts add up to the length of the text. */
  lemma CharacterCountTotals(text: string)
    ensures forall c :: c in Tally(Lower(text)).keys ==> !('A' <= c <= 'Z')
    ensures SumOver(Tally(Lower(text)).keys, Tally(Lower(text)).counts) == |text|
  {
    TallyKeys(Lower(text));
    TallySum(Lower(text));
  }

  // ---------------------------------------------------------------- sorted counts

  /** One `{"char": ch, "num": count}` entry of the sorted list. */
  datatype CharCount = CharCount(ch: char, num: nat)

  /** `get_num_key`: the sort key of an entry. */
  function NumKey(item: CharCount): nat {
    item.num
  }

  /** The entries of the dictionary, in its key order. */
  function Items(h: Histogram): seq<CharCount>
    requires forall k :: k in h.keys ==> k in h.counts
  {
    seq(|h.keys|, i requires 0 <= i < |h.keys| => CharCount(h.keys[i], h.counts[h.keys[i]]))
  }

  /** `x` placed after the last element of `s` whose key is at least its own. */
  function Insert(s: seq<CharCount>, x: CharCount): seq<CharCount>
    decreases |s|
  {
    if |s| == 0 || NumKey(s[|s| - 1]) >= NumKey(x) then s + [x]
    else Insert(s[..|s| - 1], x) + [s[|s| - 1]]
  }

  /** Inserting adds `x` and keeps every other entry. */
  lemma {:induction false} InsertPermutes(s: seq<CharCount>, x: CharCount)
    ensures multiset(Insert(s, x)) == multiset(s) + multiset{x}
    decreases |s|
  {
    if |s| > 0 && NumKey(s[|s| - 1]) < NumKey(x) {
      assert s == s[..|s| - 1] + [s[|s| - 1]];
      InsertPermutes(s[..|s| - 1], x);
    }
  }

  /** `sort(reverse=True, key=get_num_key)` as insertion of each entry in turn. */
  function SortDescending(s: seq<CharCount>): seq<CharCount>
    decreases |s|
  {
    if |s| == 0 then [] else Insert(SortDescending(s[..|s| - 1]), s[|s| - 1])
  }

  /** Largest count first. */
  predicate NonIncreasing(s: seq<CharCount>) {
    forall i, j :: 0 <= i < j < |s| ==> NumKey(s[i]) >= NumKey(s[j])
  }

  /** The entries whose count is `v`, in their order in `s`. */
  function WithCount(s: seq<CharCount>, v: nat): seq<CharCount> {
    if |s| == 0 then []
    else WithCount(s[..|s| - 1], v) + (if NumKey(s[|s| - 1]) == v then [s[|s| - 1]] else [])
  }

  lemma {:induction false} WithCountConcat(s: seq<CharCount>, t: seq<CharCount>, v: nat)
    ensures WithCount(s + t, v) == WithCount(s, v) + WithCount(t, v)
    decreases |t|
  {
    if |t| > 0 {
      assert (s + t)[..|s + t| - 1] == s + t[..|t| - 1];
      assert (s + t)[|s + t| - 1] == t[|t| - 1];
      WithCountConcat(s, t[..|t| - 1], v);
    } else {
      assert s + t == s;
    }
  }

  lemma {:induction false} InsertSorted(s: seq<CharCount>, x: CharCount)
    requires NonIncreasing(s)
    ensures NonIncreasing(Insert(s, x))
    decreases |s|
  {
    if |s| > 0 && NumKey(s[|s| - 1]) < NumKey(x) {
      var init := s[..|s| - 1];
      InsertSorted(init, x);
      var r := Insert(init, x);
      InsertPermutes(init, x);
      forall y | y in r ensures NumKey(y) >= NumKey(s[|s| - 1]) {
        assert y in multiset(r);
        if y != x {
          assert y in multiset(init);
          var k :| 0 <= k < |init| && init[k] == y;
          assert s[k] == y;
        }
      }
    }
  }

  lemma {:induction false} InsertWithCount(s: seq<CharCount>, x: CharCount, v: nat)
    ensures WithCount(Insert(s, x), v) == WithCount(s, v) + (if NumKey(x) == v then [x] else [])
    decreases |s|
  {
    if |s| == 0 || NumKey(s[|s| - 1]) >= NumKey(x) {
      WithCountConcat(s, [x], v);
    } else {
      var init := s[..|s| - 1];
      var last := s[|s| - 1];
      InsertWithCount(init, x, v);
      WithCountConcat(Insert(init, x), [last], v);
      WithCountConcat(init, [last], v);
      assert s == init + [last];
    }
  }

  /** The sorted list is in non-increasing order of count, and for every count the
      entries with that count keep their order from `s`: the sort is stable. */
  lemma {:induction false} SortProperties(s: seq<CharCount>)
    ensures multiset(SortDescending(s)) == multiset(s)
    ensures NonIncreasing(SortDescending(s))
    ensures forall v :: WithCount(SortDescending(s), v) == WithCount(s, v)
    decreases |s|
  {
    if |s| > 0 {
      var init := s[..|s| - 1];
      SortProperties(init);
      assert s == init + [s[|s| - 1]];
      InsertPermutes(SortDescending(init), s[|s| - 1]);
      InsertSorted(SortDescending(init), s[|s| - 1]);
      forall v ensures WithCount(SortDescending(s), v) == WithCount(s, v) {
        InsertWithCount(SortDescending(init), s[|s| - 1], v);
      }
    }
  }

  /** `x` lands at position `j` when every entry from `j` on has a smaller count
      and the one before `j`, if any, does not. */
  lemma {:induction false} InsertPosition(sorted: seq<CharCount>, x: CharCount, j: nat)
    requires j <= |sorted|
    requires j == 0 || NumKey(sorted[j - 1]) >= NumKey(x)
    requires forall k :: j <= k < |sorted| ==> NumKey(sorted[k]) < NumKey(x)
    ensures Insert(sorted, x) == sorted[..j] + [x] + sorted[j..]
    decreases |sorted|
  {
    if j < |sorted| {
      var init := sorted[..|sorted| - 1];
      InsertPosition(init, x, j);
      assert init[..j] == sorted[..j];
      assert sorted[j..] == init[j..] + [sorted[|sorted| - 1]];
    } else {
      assert sorted[..j] == sorted && sorted[j..] == [];
    }
  }

  /** One pass of the insertion sort: `a[i]` moved left past the entries of the
      sorted prefix `a[..i]` with a smaller count. */
  method InsertAt(a: array<CharCount>, i: nat)
    requires i < a.Length
    modifies a
    ensures a[..i + 1] == Insert(old(a[..i]), old(a[i]))
    ensures forall k :: i < k < a.Length ==> a[k] == old(a[k])
    ensures a[i + 1..] == old(a[i + 1..])
  {
    ghost var tail := a[i + 1..];
    var key := a[i];
    ghost var sorted := a[..i];
    var j := i;
    while j > 0 && NumKey(a[j - 1]) < NumKey(key)
      invariant 0 <= j <= i
      invariant forall k :: 0 <= k < j ==> a[k] == sorted[k]
      invariant forall k :: j < k <= i ==> a[k] == sorted[k - 1]
      invariant forall k :: i < k < a.Length ==> a[k] == old(a[k])
      invariant forall k :: j <= k < i ==> NumKey(sorted[k]) < NumKey(key)
    {
      a[j] := a[j - 1];
      j := j - 1;
    }
    a[j] := key;
    InsertPosition(sorted, key, j);
    assert a[..i + 1] == sorted[..j] + [key] + sorted[j..];
    assert forall k :: 0 <= k < |tail| ==> a[i + 1..][k] == tail[k];
  }

  /** `character_counts_list.sort(reverse=True, key=get_num_key)`: a stable
      insertion sort in place. */
  method SortInPlace(a: array<CharCount>)
    modifies a
    ensures a[..] == SortDescending(old(a[..]))
  {
    ghost var input := a[..];
    var i := 0;
    while i < a.Length
      invariant 0 <= i <= a.Length
      invariant a[..i] == SortDescending(input[..i])
      invariant a[i..] == input[i..]
    {
      assert input[..i + 1][..i] == input[..i];
      assert a[i] == input[i];
      assert a[i + 1..] == input[i + 1..] by {
        assert a[i + 1..] == a[i..][1..] && input[i + 1..] == input[i..][1..];
      }
      InsertAt(a, i);
      i := i + 1;
    }
    assert a[..i] == a[..];
    assert input[..i] == input;
  }

  /** `get_sorted_character_counts`: the dictionary's entries sorted by count,
      largest first. */
  method GetSortedCharacterCounts(h: Histogram) returns (r: seq<CharCount>)
    requires forall k :: k in h.keys ==> k in h.counts
    ensures r == SortDescending(Items(h))
  {
    var items := Items(h);
    var a := new CharCount[|items|](i requires 0 <= i < |items| => items[i]);
    assert a[..] == items;
    SortInPlace(a);
    r := a[..];
  }

  /** The list returned for a text's histogram holds the same entries as the
      dictionary, largest count first, and entries with equal counts stay in the
      order their characters first occur in the lower-cased text. */
  lemma SortedCharacterCounts(text: string)
    ensures multiset(SortDescending(Items(Tally(Lower(text)))))
              == multiset(Items(Tally(Lower(text))))
    ensures NonIncreasing(SortDescending(Items(Tally(Lower(text)))))
    ensures forall v :: WithCount(SortDescending(Items(Tally(Lower(text)))), v)
                          == WithCount(Items(Tally(Lower(text))), v)
  {
    SortProperties(Items(Tally(Lower(text))));
  }
}
