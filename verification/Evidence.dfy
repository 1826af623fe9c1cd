/** Bounded evidence: a two-pass greedy selection under a cap, and the merge used by recovery. */
module Evidence {
  /** The fields selection reads. `detail` stands for the fields it only carries along. */
  datatype Item = Item(citation: string, passage: string, excerpt: string, detail: string)

  const MAX_ITEMS := 12
  const MAX_EXCERPT_CHARS := 1200

  /** Only the excerpt changes: it is cut to its first 1200 characters. */
  ghost predicate Trimmed(item: Item, original: Item) {
    && item.citation == original.citation && item.passage == original.passage && item.detail == original.detail
    && item.excerpt <= original.excerpt
    && |item.excerpt| == if |original.excerpt| < 1200 then |original.excerpt| else 1200
  }

  function Normalize(item: Item): Item {
    item.(excerpt := if |item.excerpt| <= MAX_EXCERPT_CHARS then item.excerpt else item.excerpt[..MAX_EXCERPT_CHARS])
  }

  lemma NormalizedIsTrimmed(item: Item)
    ensures Trimmed(Normalize(item), item)
  {
  }

  function NormalizeAll(items: seq<Item>): (r: seq<Item>)
    ensures |r| == |items|
  {
    seq(|items|, i requires 0 <= i < |items| => Normalize(items[i]))
  }

  function Citations(items: seq<Item>): set<string> {
    set item | item in items :: item.citation
  }

  function Passages(items: seq<Item>): set<string> {
    set item | item in items :: item.passage
  }

  // ----- The selection as a function -----

  predicate Fresh(item: Item, chosen: seq<Item>) {
    item.passage !in Passages(chosen) && item.citation !in Citations(chosen)
  }

  /** First pass: take items whose passage and citation are both new, until the cap is reached. */
  function FirstPass(items: seq<Item>, chosen: seq<Item>): seq<Item> {
    if items == [] || |chosen| >= MAX_ITEMS then chosen
    else FirstPass(items[1..], if Fresh(items[0], chosen) then chosen + [items[0]] else chosen)
  }

  /** Second pass: fill up with items whose citation is new. */
  function SecondPass(items: seq<Item>, chosen: seq<Item>): seq<Item> {
    if items == [] || |chosen| >= MAX_ITEMS then chosen
    else SecondPass(items[1..], if items[0].citation !in Citations(chosen) then chosen + [items[0]] else chosen)
  }

  function Bounded(evidence: seq<Item>): seq<Item> {
    var items := NormalizeAll(evidence);
    SecondPass(items, FirstPass(items, []))
  }

  /** First occurrences by citation. */
  function Dedupe(items: seq<Item>, kept: seq<Item>): seq<Item> {
    if items == [] then kept
    else Dedupe(items[1..], if items[0].citation in Citations(kept) then kept else kept + [items[0]])
  }

  function Merge(first: seq<Item>, second: seq<Item>): seq<Item> {
    Bounded(Dedupe(first + second, []))
  }

  // ----- The selection as the program runs it -----

  method BoundedEvidence(evidence: seq<Item>) returns (selected: seq<Item>)
    ensures selected == Bounded(evidence)
  {
    var normalized := NormalizeAll(evidence);
    selected := [];
    var selectedCitations: set<string>, selectedPassages: set<string> := {}, {};
    var i := 0;
    while i < |normalized|
      invariant 0 <= i <= |normalized| && |selected| < MAX_ITEMS
      invariant selectedCitations == Citations(selected) && selectedPassages == Passages(selected)
      invariant FirstPass(normalized, []) == FirstPass(normalized[i..], selected)
    {
      var item := normalized[i];
      assert normalized[i..][0] == item && normalized[i..][1..] == normalized[i + 1..];
      i := i + 1;
      if item.passage in selectedPassages || item.citation in selectedCitations { continue; }
      selected := selected + [item];
      selectedPassages := selectedPassages + {item.passage};
      selectedCitations := selectedCitations + {item.citation};
      if |selected| >= MAX_ITEMS { return; }
    }
    i := 0;
    while i < |normalized|
      invariant 0 <= i <= |normalized| && |selected| < MAX_ITEMS
      invariant selectedCitations == Citations(selected)
      invariant Bounded(evidence) == SecondPass(normalized[i..], selected)
    {
      var item := normalized[i];
      assert normalized[i..][0] == item && normalized[i..][1..] == normalized[i + 1..];
      i := i + 1;
      if item.citation in selectedCitations { continue; }
      selected := selected + [item];
      selectedCitations := selectedCitations + {item.citation};
      if |selected| >= MAX_ITEMS { break; }
    }
  }

  method MergeEvidence(first: seq<Item>, second: seq<Item>) returns (r: seq<Item>)
    ensures r == Merge(first, second)
  {
    var merged: seq<Item>, seen: set<string> := [], {};
    var all := first + second;
    for i := 0 to |all|
      invariant seen == Citations(merged)
      invariant Dedupe(all, []) == Dedupe(all[i..], merged)
    {
      assert all[i..][0] == all[i] && all[i..][1..] == all[i + 1..];
      if all[i].citation !in seen {
        seen := seen + {all[i].citation};
        merged := merged + [all[i]];
      }
    }
    r := BoundedEvidence(merged);
  }

  // ----- Shape of a selection -----

  ghost predicate DistinctCitations(items: seq<Item>) {
    forall i, j :: 0 <= i < j < |items| ==> items[i].citation != items[j].citation
  }

  ghost predicate DistinctPassages(items: seq<Item>) {
    forall i, j :: 0 <= i < j < |items| ==> items[i].passage != items[j].passage
  }

  /** Every item of `items` shares a passage or a citation with one of `chosen`. */
  ghost predicate NoneFresh(items: seq<Item>, chosen: seq<Item>) {
    forall i :: 0 <= i < |items| ==> !Fresh(items[i], chosen)
  }

  lemma {:induction false} FirstPassShape(items: seq<Item>, chosen: seq<Item>)
    requires DistinctCitations(chosen) && DistinctPassages(chosen) && |chosen| <= MAX_ITEMS
    ensures var r := FirstPass(items, chosen);
      && chosen <= r && |r| <= MAX_ITEMS && DistinctCitations(r) && DistinctPassages(r)
      && (forall k :: |chosen| <= k < |r| ==> r[k] in items)
      && (|r| < MAX_ITEMS ==> NoneFresh(items, r))
  {
    if items != [] && |chosen| < MAX_ITEMS {
      var chosen' := if Fresh(items[0], chosen) then chosen + [items[0]] else chosen;
      FirstPassShape(items[1..], chosen');
      var r := FirstPass(items, chosen);
      assert !Fresh(items[0], chosen');
      assert !Fresh(items[0], r) by { MoreChosenLessFresh(items[0], chosen', r); }
      forall i | 0 <= i < |items| && |r| < MAX_ITEMS ensures !Fresh(items[i], r) {
        if i > 0 { assert items[1..][i - 1] == items[i]; }
      }
    }
  }

  lemma MoreChosenLessFresh(item: Item, chosen: seq<Item>, more: seq<Item>)
    requires chosen <= more && !Fresh(item, chosen)
    ensures !Fresh(item, more)
  {
    forall x | x in chosen ensures x in more { }
  }

  lemma {:induction false} SecondPassShape(items: seq<Item>, chosen: seq<Item>)
    requires DistinctCitations(chosen) && |chosen| <= MAX_ITEMS
    ensures var r := SecondPass(items, chosen);
      && chosen <= r && |r| <= MAX_ITEMS && DistinctCitations(r)
      && (forall k :: |chosen| <= k < |r| ==> r[k] in items)
      && (|r| < MAX_ITEMS ==> forall i :: 0 <= i < |items| ==> items[i].citation in Citations(r))
  {
    if items != [] && |chosen| < MAX_ITEMS {
      var chosen' := if items[0].citation !in Citations(chosen) then chosen + [items[0]] else chosen;
      SecondPassShape(items[1..], chosen');
      var r := SecondPass(items, chosen);
      assert items[0].citation in Citations(chosen') by { assert chosen' == chosen || items[0] in chosen'; }
      forall i | 0 <= i < |items| && |r| < MAX_ITEMS ensures items[i].citation in Citations(r) {
        if i > 0 { assert items[1..][i - 1] == items[i]; }
      }
    }
  }

  /** Distinct citations, at most 12, only input items, distinct passages first; nothing is dropped
      while there is room; and a passage is repeated only when no input item is new in both ways. */
  lemma BoundedShape(evidence: seq<Item>)
    ensures var r, items := Bounded(evidence), NormalizeAll(evidence);
      && |r| <= 12 && DistinctCitations(r)
      && (forall k :: 0 <= k < |r| ==> r[k] in items)
      && (|r| < 12 ==> Citations(r) == Citations(evidence))
      && (exists lead :: 0 <= lead <= |r| && r[..lead] == FirstPass(items, []) && DistinctPassages(r[..lead])
            && (lead < |r| ==> NoneFresh(items, r[..lead])))
  {
    var items := NormalizeAll(evidence);
    var lead := FirstPass(items, []);
    FirstPassShape(items, []);
    SecondPassShape(items, lead);
    var r := Bounded(evidence);
    assert r[..|lead|] == lead;
    forall k | 0 <= k < |r| ensures r[k] in items {
      if k < |lead| { assert r[k] == lead[k]; }
    }
    if |r| < MAX_ITEMS {
      forall c | c in Citations(evidence) ensures c in Citations(r) {
        var e :| e in evidence && e.citation == c;
        var i :| 0 <= i < |evidence| && evidence[i] == e;
        assert items[i].citation == c;
      }
      forall c | c in Citations(r) ensures c in Citations(evidence) {
        var e :| e in r && e.citation == c;
        var i :| 0 <= i < |items| && items[i] == e;
        assert evidence[i] in evidence && evidence[i].citation == c;
      }
    }
  }

  /** The first pass takes an item that shares neither passage nor citation with any before it, unless the
      cap was reached among those. */
  lemma FirstPassKeepsNew(items: seq<Item>, i: nat)
    requires i < |items|
    requires forall j :: 0 <= j < i ==> items[j].passage != items[i].passage && items[j].citation != items[i].citation
    ensures items[i] in FirstPass(items, []) || |FirstPass(items[..i], [])| >= MAX_ITEMS
  {
    var before := FirstPass(items[..i], []);
    FirstPassSplit(items[..i], items[i..], []);
    assert items[..i] + items[i..] == items;
    FirstPassShape(items[..i], []);
    if |before| < MAX_ITEMS {
      forall x | x in before ensures x.passage != items[i].passage && x.citation != items[i].citation {
        var k :| 0 <= k < |before| && before[k] == x;
      }
      assert Fresh(items[i], before);
      FirstPassShape(items[i..][1..], before + [items[i]]);
      assert (before + [items[i]])[|before|] == items[i];
    }
  }

  /** Every selected item is an input item, unchanged but for the cut of its excerpt. */
  lemma SelectedAreTrimmed(evidence: seq<Item>)
    ensures forall item :: item in Bounded(evidence) ==> exists x :: x in evidence && Trimmed(item, x)
  {
    BoundedShape(evidence);
    forall item | item in Bounded(evidence) ensures exists x :: x in evidence && Trimmed(item, x) {
      var k :| 0 <= k < |Bounded(evidence)| && Bounded(evidence)[k] == item;
      var n :| 0 <= n < |evidence| && NormalizeAll(evidence)[n] == item;
      NormalizedIsTrimmed(evidence[n]);
      assert evidence[n] in evidence;
    }
  }

  // ----- Selecting again selects the same -----

  lemma {:induction false} FirstPassSplit(a: seq<Item>, b: seq<Item>, chosen: seq<Item>)
    ensures FirstPass(a + b, chosen) == FirstPass(b, FirstPass(a, chosen))
  {
    if a == [] {
      assert a + b == b;
    } else if |chosen| < MAX_ITEMS {
      assert (a + b)[0] == a[0] && (a + b)[1..] == a[1..] + b;
      FirstPassSplit(a[1..], b, if Fresh(a[0], chosen) then chosen + [a[0]] else chosen);
    }
  }

  lemma DistinctMeansNew(chosen: seq<Item>, items: seq<Item>, i: nat)
    requires DistinctCitations(chosen + items) && i < |items|
    ensures items[i].citation !in Citations(chosen)
  {
    forall j | 0 <= j < |chosen| ensures chosen[j].citation != items[i].citation {
      assert (chosen + items)[j].citation != (chosen + items)[|chosen| + i].citation;
    }
  }

  /** Items that are all new to what is chosen and to each other are all taken, in order. */
  lemma {:induction false} FirstPassTakesAll(items: seq<Item>, chosen: seq<Item>)
    requires DistinctCitations(chosen + items) && DistinctPassages(chosen + items)
    requires |chosen + items| <= MAX_ITEMS
    ensures FirstPass(items, chosen) == chosen + items
  {
    if items == [] {
      assert chosen + items == chosen;
    } else {
      DistinctMeansNew(chosen, items, 0);
      assert items[0].passage !in Passages(chosen) by {
        forall j | 0 <= j < |chosen| ensures chosen[j].passage != items[0].passage {
          assert (chosen + items)[j].passage != (chosen + items)[|chosen|].passage;
        }
      }
      assert chosen + [items[0]] + items[1..] == chosen + items;
      FirstPassTakesAll(items[1..], chosen + [items[0]]);
    }
  }

  lemma {:induction false} FirstPassTakesNone(items: seq<Item>, chosen: seq<Item>)
    requires NoneFresh(items, chosen)
    ensures FirstPass(items, chosen) == chosen
  {
    if items != [] && |chosen| < MAX_ITEMS {
      FirstPassTakesNone(items[1..], chosen);
    }
  }

  lemma {:induction false} SecondPassSkips(a: seq<Item>, b: seq<Item>, chosen: seq<Item>)
    requires forall i :: 0 <= i < |a| ==> a[i].citation in Citations(chosen)
    ensures SecondPass(a + b, chosen) == SecondPass(b, chosen)
  {
    if a == [] {
      assert a + b == b;
    } else if |chosen| < MAX_ITEMS {
      assert (a + b)[0] == a[0] && (a + b)[1..] == a[1..] + b;
      SecondPassSkips(a[1..], b, chosen);
    }
  }

  lemma {:induction false} SecondPassTakesAll(items: seq<Item>, chosen: seq<Item>)
    requires DistinctCitations(chosen + items) && |chosen + items| <= MAX_ITEMS
    ensures SecondPass(items, chosen) == chosen + items
  {
    if items == [] {
      assert chosen + items == chosen;
    } else {
      DistinctMeansNew(chosen, items, 0);
      assert chosen + [items[0]] + items[1..] == chosen + items;
      SecondPassTakesAll(items[1..], chosen + [items[0]]);
    }
  }

  lemma SelectedIsNormal(evidence: seq<Item>)
    ensures NormalizeAll(Bounded(evidence)) == Bounded(evidence)
  {
    BoundedShape(evidence);
  }

  /** The first pass over a selection stops exactly where the first pass over the input stopped. */
  lemma FirstPassOfSelection(evidence: seq<Item>)
    ensures FirstPass(Bounded(evidence), []) == FirstPass(NormalizeAll(evidence), [])
    ensures Passages(Bounded(evidence)) == Passages(FirstPass(NormalizeAll(evidence), []))
  {
    var items := NormalizeAll(evidence);
    var lead := FirstPass(items, []);
    SecondPassAddsNoPassage(items, lead);
    var tail := Bounded(evidence)[|lead|..];
    assert Bounded(evidence) == lead + tail;
    FirstPassSplit(lead, tail, []);
    FirstPassTakesNone(tail, lead);
    assert FirstPass(lead, []) == lead by {
      FirstPassShape(items, []);
      assert [] + lead == lead;
      FirstPassTakesAll(lead, []);
    }
  }

  /** Below the cap, whatever the second pass adds shares its passage with the first pass. */
  lemma SecondPassAddsNoPassage(items: seq<Item>, lead: seq<Item>)
    requires lead == FirstPass(items, [])
    ensures lead <= SecondPass(items, lead)
    ensures NoneFresh(SecondPass(items, lead)[|lead|..], lead)
    ensures Passages(SecondPass(items, lead)) == Passages(lead)
  {
    var r := SecondPass(items, lead);
    FirstPassShape(items, []);
    SecondPassShape(items, lead);
    var tail := r[|lead|..];
    assert lead + tail == r;
    forall i | 0 <= i < |tail| ensures tail[i].passage in Passages(lead) {
      assert r[|lead| + i] in items;
      DistinctMeansNew(lead, tail, i);
    }
    PassagesOfRepeats(lead, tail);
  }

  lemma PassagesOfRepeats(lead: seq<Item>, tail: seq<Item>)
    requires forall i :: 0 <= i < |tail| ==> tail[i].passage in Passages(lead)
    ensures NoneFresh(tail, lead) && Passages(lead + tail) == Passages(lead)
  {
    forall p | p in Passages(lead + tail) ensures p in Passages(lead) {
      var x :| x in lead + tail && x.passage == p;
    }
  }

  /** Selection is idempotent. */
  lemma BoundedIdempotent(evidence: seq<Item>)
    ensures Bounded(Bounded(evidence)) == Bounded(evidence)
  {
    var items := NormalizeAll(evidence);
    var lead, r := FirstPass(items, []), Bounded(evidence);
    SelectedIsNormal(evidence);
    FirstPassOfSelection(evidence);
    FirstPassShape(items, []);
    SecondPassShape(items, lead);
    var tail := r[|lead|..];
    assert r == lead + tail;
    SecondPassSkips(lead, tail, lead);
    SecondPassTakesAll(tail, lead);
  }

  // ----- Recovery keeps what the first round covered -----

  lemma {:induction false} DedupeKeepsPrefix(a: seq<Item>, b: seq<Item>, kept: seq<Item>)
    requires DistinctCitations(kept + a)
    ensures kept + a <= Dedupe(a + b, kept)
  {
    if a == [] {
      assert a + b == b && kept + a == kept;
      DedupeExtends(b, kept);
    } else {
      DistinctMeansNew(kept, a, 0);
      assert (a + b)[0] == a[0] && (a + b)[1..] == a[1..] + b;
      assert kept + [a[0]] + a[1..] == kept + a;
      DedupeKeepsPrefix(a[1..], b, kept + [a[0]]);
    }
  }

  lemma {:induction false} DedupeExtends(items: seq<Item>, kept: seq<Item>)
    ensures kept <= Dedupe(items, kept)
  {
    if items != [] {
      DedupeExtends(items[1..], if items[0].citation in Citations(kept) then kept else kept + [items[0]]);
    }
  }

  /** More items behind the same beginning can only extend the first pass. */
  lemma FirstPassOfLonger(first: seq<Item>, rest: seq<Item>)
    ensures Passages(FirstPass(first, [])) <= Passages(FirstPass(first + rest, []))
  {
    var lead := FirstPass(first, []);
    FirstPassShape(first, []);
    FirstPassSplit(first, rest, []);
    FirstPassShape(rest, lead);
    var longer := FirstPass(first + rest, []);
    forall x | x in lead ensures x in longer {
      var j :| 0 <= j < |lead| && lead[j] == x;
      assert longer[j] == x;
    }
  }

  /** A selection stays at the front of what is merged with it, untouched by deduplication and truncation. */
  lemma MergedStartsWithSelection(evidence: seq<Item>, second: seq<Item>) returns (rest: seq<Item>)
    ensures NormalizeAll(Dedupe(Bounded(evidence) + second, [])) == Bounded(evidence) + rest
  {
    var first := Bounded(evidence);
    assert [] + first == first && DistinctCitations(first) by { BoundedShape(evidence); }
    DedupeKeepsPrefix(first, second, []);
    var merged := Dedupe(first + second, []);
    rest := NormalizeAll(merged[|first|..]);
    SelectedIsNormal(evidence);
    forall i | 0 <= i < |first| ensures NormalizeAll(merged)[i] == first[i] {
      assert NormalizeAll(first)[i] == Normalize(first[i]);
    }
  }

  /** Merging into a selection never drops a passage the selection had. */
  lemma MergeKeepsPassages(evidence: seq<Item>, second: seq<Item>)
    ensures Passages(Bounded(evidence)) <= Passages(Merge(Bounded(evidence), second))
  {
    var rest := MergedStartsWithSelection(evidence, second);
    FirstPassOfLonger(Bounded(evidence), rest);
    FirstPassOfSelection(evidence);
    FirstPassOfSelection(Dedupe(Bounded(evidence) + second, []));
  }

  // ----- What a merge holds -----

  /** The item at i is the first with its citation. */
  ghost predicate First(items: seq<Item>, i: int) {
    0 <= i < |items| && forall j :: 0 <= j < i ==> items[j].citation != items[i].citation
  }

  ghost predicate IsFirst(items: seq<Item>, x: Item) {
    exists i :: First(items, i) && items[i] == x
  }

  ghost predicate IsTrimmedFirst(items: seq<Item>, item: Item) {
    exists x :: IsFirst(items, x) && Trimmed(item, x)
  }

  /** De-duplication keeps every citation. */
  lemma {:induction false} DedupeKeepsCitations(items: seq<Item>, kept: seq<Item>)
    ensures kept <= Dedupe(items, kept)
    ensures Citations(Dedupe(items, kept)) == Citations(kept) + Citations(items)
  {
    if items != [] {
      var kept' := if items[0].citation in Citations(kept) then kept else kept + [items[0]];
      DedupeKeepsCitations(items[1..], kept');
      CitationsOfHead(items, kept, kept');
    }
  }

  /** Beyond what it started from it keeps only first occurrences. */
  lemma {:induction false} DedupeKeepsFirsts(items: seq<Item>, kept: seq<Item>)
    ensures var r := Dedupe(items, kept);
      kept <= r && forall k :: |kept| <= k < |r| ==> IsFirst(items, r[k])
  {
    if items != [] {
      var kept' := if items[0].citation in Citations(kept) then kept else kept + [items[0]];
      DedupeKeepsFirsts(items[1..], kept');
      DedupedAreNew(items[1..], kept');
      CitationsOfHead(items, kept, kept');
      var r := Dedupe(items, kept);
      forall k | |kept| <= k < |r| ensures IsFirst(items, r[k]) {
        if k < |kept'| {
          assert First(items, 0) && r[k] == items[0];
        } else {
          FirstOfTail(items, r[k]);
        }
      }
    }
  }

  lemma FirstOfTail(items: seq<Item>, x: Item)
    requires items != [] && IsFirst(items[1..], x) && x.citation != items[0].citation
    ensures IsFirst(items, x)
  {
    var i :| First(items[1..], i) && items[1..][i] == x;
    forall j | 0 <= j < i + 1 ensures items[j].citation != items[i + 1].citation {
      if j > 0 { assert items[1..][j - 1] == items[j]; }
    }
    assert First(items, i + 1);
  }

  lemma CitationsOfHead(items: seq<Item>, kept: seq<Item>, kept': seq<Item>)
    requires items != []
    requires kept' == if items[0].citation in Citations(kept) then kept else kept + [items[0]]
    ensures items[0].citation in Citations(kept')
    ensures Citations(kept') + Citations(items[1..]) == Citations(kept) + Citations(items)
  {
    assert kept' != kept ==> kept'[|kept|] == items[0];
    assert items == [items[0]] + items[1..];
  }

  lemma {:induction false} DedupedAreNew(items: seq<Item>, kept: seq<Item>)
    ensures var r := Dedupe(items, kept);
      kept <= r && forall k :: |kept| <= k < |r| ==> r[k].citation !in Citations(kept)
  {
    if items != [] {
      var kept' := if items[0].citation in Citations(kept) then kept else kept + [items[0]];
      DedupedAreNew(items[1..], kept');
    }
  }

  /** A merge holds only the trimmed first occurrences, by citation, in both lists; and while there is room
      it holds every citation of either. */
  lemma MergeHoldsBoth(a: seq<Item>, b: seq<Item>)
    ensures var r := Merge(a, b);
      && |r| <= MAX_ITEMS && DistinctCitations(r)
      && (|r| < MAX_ITEMS ==> Citations(r) == Citations(a) + Citations(b))
      && (forall k :: 0 <= k < |r| ==> IsTrimmedFirst(a + b, r[k]))
  {
    var all := Dedupe(a + b, []);
    DedupeKeepsCitations(a + b, []);
    DedupeKeepsFirsts(a + b, []);
    BoundedShape(all);
    CitationsOfBoth(a, b);
    TrimmedFirsts(a + b, all, Merge(a, b));
  }

  lemma CitationsOfBoth(a: seq<Item>, b: seq<Item>)
    ensures Citations(a + b) == Citations(a) + Citations(b)
  {
  }

  lemma TrimmedFirsts(items: seq<Item>, all: seq<Item>, r: seq<Item>)
    requires forall k :: 0 <= k < |all| ==> IsFirst(items, all[k])
    requires forall k :: 0 <= k < |r| ==> r[k] in NormalizeAll(all)
    ensures forall k :: 0 <= k < |r| ==> IsTrimmedFirst(items, r[k])
  {
    forall k | 0 <= k < |r| ensures IsTrimmedFirst(items, r[k]) {
      var n :| 0 <= n < |all| && NormalizeAll(all)[n] == r[k];
      NormalizedIsTrimmed(all[n]);
      assert IsFirst(items, all[n]);
    }
  }

  lemma {:induction false} CitationCount(items: seq<Item>)
    ensures |Citations(items)| <= |items|
    ensures DistinctCitations(items) ==> |Citations(items)| == |items|
  {
    if items != [] {
      var n := |items| - 1;
      CitationCount(items[..n]);
      assert Citations(items) == Citations(items[..n]) + {items[n].citation} by {
        assert items == items[..n] + [items[n]];
      }
    }
  }

  /** The citations of the first round and of every rewrite's selection. */
  function Offered(first: seq<Item>, rewrites: seq<seq<Item>>): set<string> {
    Citations(first) + set i, c | 0 <= i < |rewrites| && c in Citations(Bounded(rewrites[i])) :: c
  }

  lemma OfferedOneMore(first: seq<Item>, rewrites: seq<seq<Item>>)
    requires rewrites != []
    ensures var n := |rewrites| - 1;
      Offered(first, rewrites) == Offered(first, rewrites[..n]) + Citations(Bounded(rewrites[n]))
  {
    var n := |rewrites| - 1;
    forall i | 0 <= i < n ensures rewrites[..n][i] == rewrites[i] { }
  }

  /** While there is room, recovery holds exactly the citations of the first round and of every rewrite's
      selection. */
  lemma {:induction false} RecoveryAddsEverything(first: seq<Item>, rewrites: seq<seq<Item>>)
    requires DistinctCitations(first)
    ensures var r := Recover(first, rewrites);
      DistinctCitations(r) && (|r| < MAX_ITEMS ==> Citations(r) == Offered(first, rewrites))
  {
    if rewrites != [] {
      var n := |rewrites| - 1;
      var before, found := Recover(first, rewrites[..n]), Bounded(rewrites[n]);
      RecoveryAddsEverything(first, rewrites[..n]);
      MergeHoldsBoth(before, found);
      MergeNeverShrinks(before, found);
      OfferedOneMore(first, rewrites);
    }
  }

  lemma MergeNeverShrinks(a: seq<Item>, b: seq<Item>)
    requires DistinctCitations(a)
    ensures |Merge(a, b)| < MAX_ITEMS ==> |a| <= |Merge(a, b)|
  {
    MergeHoldsBoth(a, b);
    CitationCount(a);
    CitationCount(Merge(a, b));
    if |Merge(a, b)| < MAX_ITEMS { CountOfPart(Citations(a), Citations(Merge(a, b))); }
  }

  lemma CountOfPart<T>(part: set<T>, whole: set<T>)
    requires part <= whole
    ensures |part| <= |whole|
  {
    assert whole == part + (whole - part);
  }

  /** The recovery loop: fold every rewrite's selection into the evidence. */
  function Recover(evidence: seq<Item>, rewrites: seq<seq<Item>>): seq<Item> {
    if rewrites == [] then evidence
    else Merge(Recover(evidence, rewrites[..|rewrites| - 1]), Bounded(rewrites[|rewrites| - 1]))
  }

  method RecoverEvidence(hits: seq<Item>, rewrites: seq<seq<Item>>) returns (first: seq<Item>, evidence: seq<Item>)
    ensures first == Bounded(hits) && evidence == Recover(first, rewrites)
  {
    evidence := BoundedEvidence(hits);
    first := evidence;
    for i := 0 to |rewrites|
      invariant evidence == Recover(first, rewrites[..i])
    {
      assert rewrites[..i + 1][..i] == rewrites[..i];
      var found := BoundedEvidence(rewrites[i]);
      evidence := MergeEvidence(evidence, found);
    }
    assert rewrites[..|rewrites|] == rewrites;
  }

  /** However many rewrites are merged and whatever they return, no passage of the first round is lost,
      and the evidence stays a selection. */
  lemma {:induction false} RecoveryKeepsPassages(hits: seq<Item>, rewrites: seq<seq<Item>>)
    ensures Passages(Bounded(hits)) <= Passages(Recover(Bounded(hits), rewrites))
    ensures Bounded(Recover(Bounded(hits), rewrites)) == Recover(Bounded(hits), rewrites)
  {
    if rewrites == [] {
      BoundedIdempotent(hits);
    } else {
      var before := Recover(Bounded(hits), rewrites[..|rewrites| - 1]);
      RecoveryKeepsPassages(hits, rewrites[..|rewrites| - 1]);
      MergeKeepsPassages(before, Bounded(rewrites[|rewrites| - 1]));
      BoundedIdempotent(Dedupe(before + Bounded(rewrites[|rewrites| - 1]), []));
    }
  }
}
