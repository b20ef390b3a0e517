/**
 * The statistics page: the number of entries and the twenty most frequent
 * words among the entries' feeling words and tags.
 */
module AppStats {
  import opened Types
  import opened Seqs
  import opened JsText

  /** A character the cleaning keeps: a CJK ideograph U+4E00..U+9FA5, or a word character `[A-Za-z0-9_]`. */
  predicate KeepChar(c: char) {
    || (0x4E00 <= c as int <= 0x9FA5)
    || ('a' <= c <= 'z') || ('A' <= c <= 'Z') || ('0' <= c <= '9') || c == '_'
  }

  /** A word with every other character removed. */
  function Clean(w: string): (r: string)
    ensures forall c :: c in r <==> c in w && KeepChar(c)
    ensures forall c :: multiset(r)[c] == if KeepChar(c) then multiset(w)[c] else 0
    ensures IsSubseq(r, w)
  {
    FilterCounts(w, (c: char) => KeepChar(c));
    Filter(w, (c: char) => KeepChar(c))
  }

  /** Cleaning a cleaned word changes nothing. */
  lemma CleanIdempotent(w: string)
    ensures Clean(Clean(w)) == Clean(w)
  {
    FilterKeepsAll(Clean(w), (c: char) => KeepChar(c));
  }

  /** The feeling words that the default feelings and the common filler produce, never counted. */
  const Fillers: set<string> := {"不错", "低落", "平静", "开心"}

  /** A cleaned word that is counted: not empty and not a filler. */
  predicate Counted(w: string) {
    |w| >= 1 && w !in Fillers
  }

  /** The raw words of an entry: its feeling split at spaces, then its tags. */
  function RawWords(e: Entry): seq<string> {
    Split(e.content.feeling, ' ') + e.tags
  }

  /** `.map(clean)`: the raw words cleaned, position by position. */
  function Cleaned(ws: seq<string>): (r: seq<string>)
    ensures |r| == |ws| && forall i :: 0 <= i < |ws| ==> r[i] == Clean(ws[i])
  {
    seq(|ws|, i requires 0 <= i < |ws| => Clean(ws[i]))
  }

  /**
   * The counted words among `ws`, cleaned, in order: the cleaned words with
   * every copy of a counted word kept and every other word dropped.
   */
  function CleanAll(ws: seq<string>): (r: seq<string>)
    ensures |r| <= |ws|
    ensures forall w :: multiset(r)[w] == if Counted(w) then multiset(Cleaned(ws))[w] else 0
    ensures IsSubseq(r, Cleaned(ws))
    ensures forall w :: w in r ==> Counted(w) && forall c :: c in w ==> KeepChar(c)
    ensures forall k :: 0 <= k < |ws| && Counted(Clean(ws[k])) ==> Clean(ws[k]) in r
  {
    var cleaned := Cleaned(ws);
    var r := Filter(cleaned, (w: string) => Counted(w));
    FilterCounts(cleaned, (w: string) => Counted(w));
    assert forall w :: w in r ==> forall c :: c in w ==> KeepChar(c) by {
      forall w | w in r ensures forall c :: c in w ==> KeepChar(c) {
        var i :| 0 <= i < |cleaned| && cleaned[i] == w;
      }
    }
    assert forall k :: 0 <= k < |ws| ==> Clean(ws[k]) == cleaned[k];
    r
  }

  /** `entries.flatMap(...)`: the counted words of all entries, entry by entry. */
  function Words(entries: seq<Entry>): (r: seq<string>)
    ensures forall w :: w in r ==> Counted(w) && forall c :: c in w ==> KeepChar(c)
  {
    if entries == [] then [] else CleanAll(RawWords(entries[0])) + Words(entries[1..])
  }

  /** The words of two runs of entries are the words of each, one after the other. */
  lemma {:induction false} WordsAppend(a: seq<Entry>, b: seq<Entry>)
    ensures Words(a + b) == Words(a) + Words(b)
  {
    if a == [] {
      assert a + b == b;
    } else {
      assert (a + b)[1..] == a[1..] + b;
      WordsAppend(a[1..], b);
    }
  }

  /** A tag that survives cleaning and is not a filler is among the words. */
  lemma {:induction false} TagIsCounted(entries: seq<Entry>, i: int, t: string)
    requires 0 <= i < |entries| && t in entries[i].tags && Counted(Clean(t))
    ensures Clean(t) in Words(entries)
    decreases i
  {
    if i == 0 {
      var raw := RawWords(entries[0]);
      var k :| 0 <= k < |entries[0].tags| && entries[0].tags[k] == t;
      assert raw[|Split(entries[0].content.feeling, ' ')| + k] == t;
    } else {
      TagIsCounted(entries[1..], i - 1, t);
    }
  }

  /** A word and how often it occurs. */
  datatype WordCount = WordCount(word: string, count: int)

  ghost predicate NonIncreasing(xs: seq<WordCount>) {
    forall i, j :: 0 <= i < j < |xs| ==> xs[i].count >= xs[j].count
  }

  ghost predicate DistinctWords(xs: seq<WordCount>) {
    forall i, j :: 0 <= i < j < |xs| ==> xs[i].word != xs[j].word
  }

  /** Places `x` before the first element whose count is not larger (so equal counts keep their order). */
  function InsertByCount(x: WordCount, s: seq<WordCount>): (r: seq<WordCount>)
    requires NonIncreasing(s)
    ensures NonIncreasing(r)
    ensures multiset(r) == multiset(s) + multiset{x}
  {
    if s == [] || s[0].count <= x.count then
      assert forall j :: 0 <= j < |s| ==> s[j].count <= x.count by {
        if s != [] {
          assert forall j :: 0 < j < |s| ==> s[0].count >= s[j].count;
        }
      }
      assert multiset([x] + s) == multiset(s) + multiset{x};
      [x] + s
    else
      TailKeepsOrder(s);
      var rest := InsertByCount(x, s[1..]);
      assert s == [s[0]] + s[1..];
      InsertedBelowHead(x, s, rest);
      [s[0]] + rest
  }

  /** Inserting below a larger head keeps the head first. */
  lemma InsertedBelowHead(x: WordCount, s: seq<WordCount>, rest: seq<WordCount>)
    requires s != [] && NonIncreasing(s) && NonIncreasing(rest) && s[0].count > x.count
    requires multiset(rest) == multiset(s[1..]) + multiset{x}
    ensures NonIncreasing([s[0]] + rest)
    ensures multiset([s[0]] + rest) == multiset(s) + multiset{x}
  {
    var r := [s[0]] + rest;
    forall y | y in rest ensures y.count <= s[0].count {
      assert y in multiset(rest);
      if y != x {
        var k :| 0 <= k < |s[1..]| && s[1..][k] == y;
        assert s[k + 1] == y;
      }
    }
    forall i, j | 0 <= i < j < |r| ensures r[i].count >= r[j].count {
      if i == 0 {
        assert r[j] in rest;
      } else {
        assert r[i] == rest[i - 1] && r[j] == rest[j - 1];
      }
    }
    assert s == [s[0]] + s[1..];
  }

  /** `sort((a, b) => b[1] - a[1])`: a stable sort by descending count. */
  function SortByCount(xs: seq<WordCount>): (r: seq<WordCount>)
    ensures NonIncreasing(r)
    ensures multiset(r) == multiset(xs)
  {
    if xs == [] then []
    else
      assert xs == [xs[0]] + xs[1..];
      InsertByCount(xs[0], SortByCount(xs[1..]))
  }

  lemma {:induction false} InsertKeepsDistinct(x: WordCount, s: seq<WordCount>)
    requires NonIncreasing(s) && DistinctWords(s)
    requires forall y :: y in s ==> y.word != x.word
    ensures DistinctWords(InsertByCount(x, s))
  {
    if s == [] || s[0].count <= x.count {
      ConsDistinct(x, s);
    } else {
      TailKeepsOrder(s);
      var rest := InsertByCount(x, s[1..]);
      InsertKeepsDistinct(x, s[1..]);
      forall y | y in rest ensures y.word != s[0].word {
        assert y in multiset(rest);
        if y != x {
          var k :| 0 <= k < |s[1..]| && s[1..][k] == y;
          assert s[k + 1] == y;
        }
      }
      ConsDistinct(s[0], rest);
    }
  }

  lemma TailKeepsOrder(s: seq<WordCount>)
    requires s != []
    ensures NonIncreasing(s) ==> NonIncreasing(s[1..])
    ensures DistinctWords(s) ==> DistinctWords(s[1..])
  {
    forall i, j | 0 <= i < j < |s[1..]| ensures s[1..][i] == s[i + 1] && s[1..][j] == s[j + 1] {
    }
  }

  lemma ConsDistinct(h: WordCount, rest: seq<WordCount>)
    requires DistinctWords(rest) && forall y :: y in rest ==> y.word != h.word
    ensures DistinctWords([h] + rest)
  {
    var r := [h] + rest;
    forall i, j | 0 <= i < j < |r| ensures r[i].word != r[j].word {
      if i == 0 {
        assert r[j] in rest;
      } else {
        assert r[i] == rest[i - 1] && r[j] == rest[j - 1];
      }
    }
  }

  lemma {:induction false} SortKeepsDistinct(xs: seq<WordCount>)
    requires DistinctWords(xs)
    ensures DistinctWords(SortByCount(xs))
  {
    if xs != [] {
      var rest := SortByCount(xs[1..]);
      TailKeepsOrder(xs);
      SortKeepsDistinct(xs[1..]);
      forall y | y in rest ensures y.word != xs[0].word {
        assert y in multiset(rest);
        var k :| 1 <= k < |xs| && xs[k] == y;
      }
      InsertKeepsDistinct(xs[0], rest);
    }
  }

  /**
   * `top` is a most-frequent-words list of `words`: at most twenty distinct
   * words with their exact counts, by descending count, and every word left
   * out occurs no more often than the last one listed (which happens only
   * when twenty are listed).
   */
  ghost predicate IsTopWords(words: seq<string>, top: seq<WordCount>) {
    && |top| <= 20
    && NonIncreasing(top)
    && DistinctWords(top)
    && (forall i :: 0 <= i < |top| ==> top[i].word in words && top[i].count == multiset(words)[top[i].word])
    && (forall w :: w in words && (forall i :: 0 <= i < |top| ==> top[i].word != w) ==>
          |top| == 20 && multiset(words)[w] <= top[19].count)
  }

  /**
   * `wordFreq[w] = (wordFreq[w] || 0) + 1` for each word: the table of
   * counts, and its keys in the order they were first met.
   */
  method CountWords(words: seq<string>) returns (freq: map<string, int>, keys: seq<string>)
    ensures NoDuplicates(keys)
    ensures forall w :: w in keys <==> w in words
    ensures forall w :: w in freq <==> w in words
    ensures forall w :: w in freq ==> freq[w] == multiset(words)[w]
  {
    freq := map[];
    keys := [];
    var i := 0;
    while i < |words|
      invariant 0 <= i <= |words|
      invariant NoDuplicates(keys)
      invariant forall w :: w in keys <==> w in words[..i]
      invariant forall w :: w in freq <==> w in words[..i]
      invariant forall w :: w in freq ==> freq[w] == multiset(words[..i])[w]
    {
      var w := words[i];
      assert words[..i + 1] == words[..i] + [w];
      if w in freq {
        freq := freq[w := freq[w] + 1];
      } else {
        freq := freq[w := 1];
        keys := keys + [w];
      }
      i := i + 1;
    }
    assert words[..i] == words;
  }

  /** The statistics: the number of entries and the top twenty words. */
  method Stats(entries: seq<Entry>) returns (top: seq<WordCount>, total: int)
    ensures total == |entries|
    ensures IsTopWords(Words(entries), top)
  {
    var words := Words(entries);
    var freq, keys := CountWords(words);
    var counted := seq(|keys|, i requires 0 <= i < |keys| => WordCount(keys[i], freq[keys[i]]));
    var sorted := SortByCount(counted);
    assert DistinctWords(counted) by {
      forall i, j | 0 <= i < j < |counted| ensures counted[i].word != counted[j].word {
        assert counted[i].word == keys[i] && counted[j].word == keys[j];
      }
    }
    SortKeepsDistinct(counted);
    forall x | x in counted ensures x.word in words && x.count == multiset(words)[x.word] {
      var i :| 0 <= i < |counted| && counted[i] == x;
    }
    forall w | w in words ensures exists i :: 0 <= i < |counted| && counted[i].word == w {
      var k :| 0 <= k < |keys| && keys[k] == w;
      assert counted[k].word == w;
    }
    top := if |sorted| <= 20 then sorted else sorted[..20];
    total := |entries|;
    TopOfSorted(words, counted, sorted, top);
  }

  lemma TopOfSorted(words: seq<string>, counted: seq<WordCount>, sorted: seq<WordCount>, top: seq<WordCount>)
    requires forall x :: x in counted ==> x.word in words && x.count == multiset(words)[x.word]
    requires forall w :: w in words ==> exists i :: 0 <= i < |counted| && counted[i].word == w
    requires NonIncreasing(sorted) && DistinctWords(sorted) && multiset(sorted) == multiset(counted)
    requires top == if |sorted| <= 20 then sorted else sorted[..20]
    ensures IsTopWords(words, top)
  {
    assert |top| <= 20;
    assert NonIncreasing(top) && DistinctWords(top) by {
      forall i | 0 <= i < |top| ensures top[i] == sorted[i] {}
    }
    forall i | 0 <= i < |top| ensures top[i].word in words && top[i].count == multiset(words)[top[i].word] {
      assert top[i] == sorted[i];
      assert sorted[i] in multiset(counted);
    }
    forall w | w in words && (forall i :: 0 <= i < |top| ==> top[i].word != w)
      ensures |top| == 20 && multiset(words)[w] <= top[19].count
    {
      var i :| 0 <= i < |counted| && counted[i].word == w;
      assert counted[i] in multiset(sorted);
      var j :| 0 <= j < |sorted| && sorted[j] == counted[i];
      assert j >= |top| && |top| == 20;
      assert top[19] == sorted[19];
    }
  }

  // ---------------------------------------------------------------------------
  // The frequency table as written: a plain object literal

  /**
   * The names a plain object inherits from `Object.prototype`. All of them
   * survive cleaning, so a tag or feeling word can be one of them.
   */
  const InheritedNames: set<string> := {
    "constructor", "hasOwnProperty", "isPrototypeOf", "propertyIsEnumerable", "toString",
    "toLocaleString", "valueOf", "__defineGetter__", "__defineSetter__", "__lookupGetter__",
    "__lookupSetter__", "__proto__"}

  /**
   * An own property of `wordFreq`: a number, or text. Reading an inherited
   * member yields a function or an object, which `+ 1` turns into a string,
   * and a string plus 1 stays a string.
   */
  datatype Slot = Number(n: int) | Text

  /**
   * The own properties of `wordFreq` after counting `words` on an object
   * created with `{}`: an inherited name is stored as text, and assigning a
   * string to `__proto__` is ignored, so that word is never stored.
   */
  function TallyAsWritten(words: seq<string>): map<string, Slot>
    decreases |words|
  {
    if words == [] then map[]
    else
      var m := TallyAsWritten(words[..|words| - 1]);
      var w := words[|words| - 1];
      if w == "__proto__" then m
      else if w in m then (if m[w].Number? then m[w := Number(m[w].n + 1)] else m)
      else if w in InheritedNames then m[w := Text]
      else m[w := Number(1)]
  }

  /** Away from the inherited names the object counts exactly. */
  lemma {:induction false} TallyAsWrittenCountsOrdinaryWords(words: seq<string>)
    requires forall k :: 0 <= k < |words| ==> words[k] !in InheritedNames
    ensures forall w :: w in TallyAsWritten(words) <==> w in words
    ensures forall w :: w in TallyAsWritten(words) ==> TallyAsWritten(words)[w] == Number(multiset(words)[w])
    decreases |words|
  {
    if words != [] {
      var init := words[..|words| - 1];
      TallyAsWrittenCountsOrdinaryWords(init);
      assert words == init + [words[|words| - 1]];
    }
  }

  /**
   * A word "constructor" is counted as text rather than 1, and a word
   * "__proto__" is not counted at all; both occur once.
   */
  lemma TallyAsWrittenMiscounts()
    ensures TallyAsWritten(["constructor"]) == map["constructor" := Text]
    ensures multiset(["constructor"])["constructor"] == 1
    ensures TallyAsWritten(["__proto__"]) == map[]
  {
    assert ["constructor"][..0] == [];
    assert ["__proto__"][..0] == [];
  }

  /** Both names are made of word characters, so a tag spelled so reaches the table. */
  lemma InheritedNamesReachTally(w: string)
    requires w == "constructor" || w == "__proto__"
    ensures Clean(w) == w && Counted(w) && w in InheritedNames
  {
    assert forall k :: 0 <= k < |w| ==> KeepChar(w[k]);
    assert forall f :: f in Fillers ==> |f| == 2;
    assert |w| > 2;
    FilterKeepsAll(w, (c: char) => KeepChar(c));
  }
}
