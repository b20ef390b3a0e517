/** The history list: entries narrowed to a chosen calendar day and a search term. */
module AppHistory {
  import opened Prelude
  import opened Types
  import opened Seqs
  import opened JsText

  /**
   * The entry was written on `day`. `localDay` maps an instant to the local
   * calendar day (date, month and year read off a `Date`); an entry without a
   * timestamp makes an invalid date, which is on no day.
   */
  predicate OnDay(e: Entry, day: int, localDay: int -> int) {
    e.timestamp.Some? && localDay(e.timestamp.value) == day
  }

  /** The lower-cased event, the evidence or some tag contains the lower-cased term; the feeling is not searched. */
  predicate SearchHit(e: Entry, term: string) {
    var needle := ToLower(term);
    || Includes(ToLower(e.content.event), needle)
    || Includes(ToLower(e.content.evidence), needle)
    || exists k :: 0 <= k < |e.tags| && Includes(ToLower(e.tags[k]), needle)
  }

  /** The history filter: first by the selected day, if any, then by a non-empty search term. */
  function FilterEntries(entries: seq<Entry>, selected: Option<int>, localDay: int -> int, term: string): (r: seq<Entry>)
    ensures IsSubseq(r, entries)
    ensures forall e :: e in r <==>
      && e in entries
      && (selected.Some? ==> OnDay(e, selected.value, localDay))
      && (term != "" ==> SearchHit(e, term))
    ensures selected.None? && term == "" ==> r == entries
  {
    var byDay := if selected.Some? then Filter(entries, (e: Entry) => OnDay(e, selected.value, localDay)) else entries;
    if term != "" then
      var r := Filter(byDay, (e: Entry) => SearchHit(e, term));
      SubseqReflexive(entries);
      SubseqTransitive(r, byDay, entries);
      r
    else
      SubseqReflexive(byDay);
      byDay
  }

  /** The two filters in one pass: keep an entry iff it passes both tests. */
  function Passes(e: Entry, selected: Option<int>, localDay: int -> int, term: string): bool {
    (selected.None? || OnDay(e, selected.value, localDay)) && (term == "" || SearchHit(e, term))
  }

  /** Filtering by day then by term is one filter by both tests. */
  lemma FilterEntriesIsOneFilter(entries: seq<Entry>, selected: Option<int>, localDay: int -> int, term: string)
    ensures FilterEntries(entries, selected, localDay, term) == Filter(entries, (e: Entry) => Passes(e, selected, localDay, term))
  {
    var both := (e: Entry) => Passes(e, selected, localDay, term);
    if selected.Some? && term != "" {
      var day, hit := (e: Entry) => OnDay(e, selected.value, localDay), (e: Entry) => SearchHit(e, term);
      FilterFilter(entries, day, hit, both);
    } else if selected.Some? {
      FilterSameTest(entries, (e: Entry) => OnDay(e, selected.value, localDay), both);
    } else if term != "" {
      FilterSameTest(entries, (e: Entry) => SearchHit(e, term), both);
    } else {
      FilterKeepsAll(entries, both);
    }
  }

  /** What the feeling says never changes whether an entry matches a search. */
  lemma FeelingNotSearched(e: Entry, feeling: string, term: string)
    ensures SearchHit(e.(content := e.content.(feeling := feeling)), term) == SearchHit(e, term)
  {
  }

  /**
   * The search ignores the case of ASCII letters: a term matches an entry
   * whose event contains it with any capitalisation (`u` is the spelling in
   * the event), and two terms equal up to case match the same entries.
   */
  lemma EventMatchIgnoresCase(e: Entry, term: string, u: string)
    requires Includes(e.content.event, u) && ToLower(u) == ToLower(term)
    ensures SearchHit(e, term)
    ensures SearchHit(e, u) == SearchHit(e, term)
  {
    var i :| OccursAt(e.content.event, u, i);
    var lower := ToLower(e.content.event);
    assert lower[i..i + |u|] == ToLower(u);
    assert OccursAt(lower, ToLower(term), i);
  }
}
