/**
 * The admin search: a case-insensitive substring filter over the candidates
 * the search query returned, and the local update of the result list after a
 * discount is redeemed.
 */
module Search {
  import opened Store
  import opened Query

  // ---------------------------------------------------------------------
  // Case-insensitive substring matching.

  /** Lower-casing, on the ASCII letters. */
  function LowerChar(c: char): char {
    if 'A' <= c <= 'Z' then (c as int + 32) as char else c
  }

  /** `toLowerCase()`: every upper-case letter replaced by its lower-case form. */
  function Lower(s: string): (r: string)
    ensures |r| == |s|
    ensures forall k :: 0 <= k < |r| ==> !('A' <= r[k] <= 'Z')
    ensures forall k :: 0 <= k < |r| ==> ('a' <= r[k] <= 'z' <==> 'a' <= s[k] <= 'z' || 'A' <= s[k] <= 'Z')
    ensures forall k :: 0 <= k < |r| && !('A' <= s[k] <= 'Z') ==> r[k] == s[k]
    ensures forall k :: 0 <= k < |r| && 'A' <= s[k] <= 'Z' ==> r[k] as int == s[k] as int + 32
  {
    seq(|s|, k requires 0 <= k < |s| => LowerChar(s[k]))
  }

  /** Lower-casing twice is lower-casing once. */
  lemma LowerIdempotent(s: string)
    ensures Lower(Lower(s)) == Lower(s)
  {
    forall k | 0 <= k < |s| ensures Lower(Lower(s))[k] == Lower(s)[k] {
      assert !('A' <= Lower(s)[k] <= 'Z');
    }
  }

  /** `t` occurs in `s` starting at index `i`. */
  predicate OccursAt(s: string, t: string, i: int) {
    0 <= i && i + |t| <= |s| && s[i..i + |t|] == t
  }

  /** `s.includes(t)`. */
  predicate Contains(s: string, t: string) {
    t <= s || (s != [] && Contains(s[1..], t))
  }

  /** A slice of the tail is the slice of the whole one place further on. */
  lemma TailSlice(s: string, i: int, n: nat)
    requires 1 <= i && i + n <= |s|
    ensures s[1..][i - 1..i - 1 + n] == s[i..i + n]
  {
  }

  /** An occurrence at 0 is a prefix. */
  lemma OccursAtStart(s: string, t: string)
    ensures OccursAt(s, t, 0) ==> t <= s
  {
    if OccursAt(s, t, 0) {
      assert s[..|t|] == t;
    }
  }

  /** An occurrence past 0 is an occurrence in the tail, one place earlier. */
  lemma OccursInTail(s: string, t: string, i: int)
    requires 1 <= i
    ensures OccursAt(s, t, i) ==> OccursAt(s[1..], t, i - 1)
  {
    if OccursAt(s, t, i) {
      TailSlice(s, i, |t|);
    }
  }

  /** `Contains` finds exactly the occurrences of `t` in `s`. */
  lemma {:induction false} ContainsIffOccurs(s: string, t: string)
    ensures Contains(s, t) <==> exists i :: OccursAt(s, t, i)
  {
    if t <= s {
      assert OccursAt(s, t, 0);
    } else if s == [] {
      assert |t| > 0;
    } else {
      ContainsIffOccurs(s[1..], t);
      if Contains(s[1..], t) {
        var i :| OccursAt(s[1..], t, i);
        assert s[1..][i..i + |t|] == s[i + 1..i + 1 + |t|];
        assert OccursAt(s, t, i + 1);
      } else {
        forall i ensures !OccursAt(s, t, i) {
          if i == 0 {
            OccursAtStart(s, t);
          } else if 1 <= i {
            OccursInTail(s, t, i);
          }
        }
      }
    }
  }

  /** The field a search looks at. */
  function SearchedField(c: Customer, t: SearchType): Option<string> {
    if t == ByName then c.name else c.email
  }

  /** The candidate's field is present and, lower-cased, contains the lower-cased term. */
  predicate Matches(c: Customer, t: SearchType, term: string) {
    var v := SearchedField(c, t);
    Present(v) && Contains(Lower(v.value), Lower(term))
  }

  /** Matching ignores case in the term: any capitalisation of a term matches the same customers. */
  lemma MatchIgnoresTermCase(c: Customer, t: SearchType, term: string)
    ensures Matches(c, t, term) <==> Matches(c, t, Lower(term))
  {
    LowerIdempotent(term);
  }

  /** Every candidate with the field present matches the empty term. */
  lemma EmptyTermMatchesPresent(c: Customer, t: SearchType)
    ensures Matches(c, t, "") <==> Present(SearchedField(c, t))
  {
    assert Lower("") == "";
  }

  // ---------------------------------------------------------------------
  // The filter.

  /** The matching candidates, in candidate order. */
  function Keep(docs: seq<Customer>, t: SearchType, term: string): (r: seq<Customer>)
    ensures |r| <= |docs|
  {
    if docs == [] then []
    else
      var last := docs[|docs| - 1];
      Keep(docs[..|docs| - 1], t, term) + (if Matches(last, t, term) then [last] else [])
  }

  /** The filter keeps exactly the candidates that match. */
  lemma {:induction false} KeepExactlyMatches(docs: seq<Customer>, t: SearchType, term: string)
    ensures forall c :: c in Keep(docs, t, term) <==> c in docs && Matches(c, t, term)
  {
    if docs != [] {
      var init, last := docs[..|docs| - 1], docs[|docs| - 1];
      assert docs == init + [last];
      KeepExactlyMatches(init, t, term);
    }
  }

  /** `a` is `b` with some elements deleted: order is preserved. */
  predicate IsSubsequence(a: seq<Customer>, b: seq<Customer>)
    decreases |b|
  {
    if a == [] then true
    else if b == [] then false
    else if a[|a| - 1] == b[|b| - 1] then IsSubsequence(a[..|a| - 1], b[..|b| - 1])
    else IsSubsequence(a, b[..|b| - 1])
  }

  /** The filter keeps the candidates' order. */
  lemma {:induction false} KeepPreservesOrder(docs: seq<Customer>, t: SearchType, term: string)
    ensures IsSubsequence(Keep(docs, t, term), docs)
  {
    if docs != [] {
      var init := docs[..|docs| - 1];
      var last := docs[|docs| - 1];
      KeepPreservesOrder(init, t, term);
      KeepExactlyMatches(init, t, term);
      var k := Keep(init, t, term);
      if Matches(last, t, term) {
        assert Keep(docs, t, term) == k + [last];
        assert (k + [last])[..|k + [last]| - 1] == k;
      } else {
        assert Keep(docs, t, term) == k;
        if k != [] {
          assert k[|k| - 1] in k;
          assert k[|k| - 1] != last;
        }
      }
    }
  }

  /** One entry of the search results: `{ id, ...customerData, ...engagementData }`. */
  datatype Entry = Entry(customer: Customer, engagement: Engagement)

  function Entries(kept: seq<Customer>, engagement: map<Id, Engagement>): (r: seq<Entry>)
    ensures |r| == |kept|
    ensures forall k :: 0 <= k < |r| ==> r[k].customer == kept[k]
    ensures forall k :: 0 <= k < |r| ==> r[k].engagement == DataOrEmpty(Lookup(engagement, kept[k].id))
  {
    seq(|kept|, k requires 0 <= k < |kept| => Entry(kept[k], DataOrEmpty(Lookup(engagement, kept[k].id))))
  }

  /** The filter over one more candidate. */
  lemma KeepStep(docs: seq<Customer>, i: nat, t: SearchType, term: string)
    requires i < |docs|
    ensures Keep(docs[..i + 1], t, term) ==
            Keep(docs[..i], t, term) + (if Matches(docs[i], t, term) then [docs[i]] else [])
  {
    assert docs[..i + 1][..i] == docs[..i];
  }

  /**
   * One more matching candidate whose engagement read succeeds: its entry is
   * appended, and every read so far has succeeded.
   */
  lemma CollectStep(docs: seq<Customer>, i: nat, t: SearchType, term: string,
                    engagement: map<Id, Engagement>, unreadable: set<Id>)
    requires i < |docs| && Matches(docs[i], t, term) && docs[i].id !in unreadable
    requires Readable(Keep(docs[..i], t, term), unreadable)
    ensures Entries(Keep(docs[..i + 1], t, term), engagement) ==
            Entries(Keep(docs[..i], t, term), engagement) + [Entry(docs[i], DataOrEmpty(Lookup(engagement, docs[i].id)))]
    ensures Readable(Keep(docs[..i + 1], t, term), unreadable)
  {
    KeepStep(docs, i, t, term);
    ReadableAppend(Keep(docs[..i], t, term), docs[i], unreadable);
  }

  /** A matching candidate whose engagement read throws makes the whole filter unreadable. */
  lemma KeptIsRead(docs: seq<Customer>, i: nat, t: SearchType, term: string, unreadable: set<Id>)
    requires i < |docs| && Matches(docs[i], t, term) && docs[i].id in unreadable
    ensures !Readable(Keep(docs, t, term), unreadable)
  {
    var kept := Keep(docs, t, term);
    KeepExactlyMatches(docs, t, term);
    assert docs[i] in kept;
    var k :| 0 <= k < |kept| && kept[k] == docs[i];
  }

  /** The search loop: each candidate is tested, and a match's engagement document is read and merged. */
  method CollectMatches(docs: seq<Customer>, t: SearchType, term: string,
                        engagement: map<Id, Engagement>, unreadable: set<Id>) returns (r: Attempt<seq<Entry>>)
    ensures r == if Readable(Keep(docs, t, term), unreadable)
                 then Ok(Entries(Keep(docs, t, term), engagement)) else Threw
  {
    var termLower := Lower(term);
    var found: seq<Entry> := [];
    for i := 0 to |docs|
      invariant found == Entries(Keep(docs[..i], t, term), engagement)
      invariant Readable(Keep(docs[..i], t, term), unreadable)
    {
      var c := docs[i];
      var v := SearchedField(c, t);
      var isMatch := Present(v) && Contains(Lower(v.value), termLower);
      assert isMatch == Matches(c, t, term);
      if isMatch {
        if c.id in unreadable {
          KeptIsRead(docs, i, t, term, unreadable);
          return Threw;
        }
        var e := if c.id in engagement then engagement[c.id] else NoFields;
        CollectStep(docs, i, t, term, engagement, unreadable);
        found := found + [Entry(c, e)];
      } else {
        KeepStep(docs, i, t, term);
      }
    }
    assert docs[..|docs|] == docs;
    return Ok(found);
  }

  /** How a search ends: the matches, or one of three messages. */
  datatype SearchOutcome = Found(entries: seq<Entry>) | NoCustomers | NoMatches | SearchFailed

  function SearchResult(snapshot: Attempt<seq<Customer>>, t: SearchType, term: string,
                        engagement: map<Id, Engagement>, unreadable: set<Id>): SearchOutcome
  {
    match snapshot
    case Threw => SearchFailed
    case Ok(docs) =>
      if docs == [] then NoCustomers
      else
        var kept := Keep(docs, t, term);
        if !Readable(kept, unreadable) then SearchFailed
        else if kept == [] then NoMatches
        else Found(Entries(kept, engagement))
  }

  /**
   * A search over an answer of the search query: it finds exactly the matching
   * candidates, in their order, never more than the scan cap; it reports no
   * match exactly when there were candidates but none matched, and it fails
   * exactly when some match's engagement document cannot be read.
   */
  lemma SearchFindsExactlyMatches(t: SearchType, term: string, store: map<Id, Customer>, docs: seq<Customer>,
                                  engagement: map<Id, Engagement>, unreadable: set<Id>)
    requires Answers(SearchQuery(t), store, docs)
    ensures SearchResult(Ok(docs), t, term, engagement, unreadable) == NoCustomers <==> docs == []
    ensures SearchResult(Ok(docs), t, term, engagement, unreadable) == NoMatches <==>
              docs != [] && forall c :: c in docs ==> !Matches(c, t, term)
    ensures SearchResult(Ok(docs), t, term, engagement, unreadable).Found? ==>
              var es := SearchResult(Ok(docs), t, term, engagement, unreadable).entries;
              && 1 <= |es| <= ScanCap
              && (forall c :: c in docs && Matches(c, t, term) <==> exists k :: 0 <= k < |es| && es[k].customer == c)
              && |es| == |Keep(docs, t, term)|
              && (forall k :: 0 <= k < |es| ==> es[k].customer == Keep(docs, t, term)[k])
              && IsSubsequence(Keep(docs, t, term), docs)
    ensures SearchResult(Ok(docs), t, term, engagement, unreadable).Found? <==>
              (exists c :: c in docs && Matches(c, t, term)) && Readable(Keep(docs, t, term), unreadable)
    ensures SearchResult(Ok(docs), t, term, engagement, unreadable) == SearchFailed <==>
              docs != [] && !Readable(Keep(docs, t, term), unreadable)
  {
    SearchScanCap(t, store, docs);
    KeepPreservesOrder(docs, t, term);
    KeepExactlyMatches(docs, t, term);
    var kept := Keep(docs, t, term);
    if kept == [] {
      forall c | c in docs ensures !Matches(c, t, term) {
        assert c !in kept;
      }
    } else {
      assert kept[0] in docs && Matches(kept[0], t, term);
    }
    var es := Entries(kept, engagement);
    forall c ensures c in kept <==> exists k :: 0 <= k < |es| && es[k].customer == c {
      if c in kept {
        var k :| 0 <= k < |kept| && kept[k] == c;
        assert es[k].customer == c;
      }
    }
  }

  // ---------------------------------------------------------------------
  // Redeeming.

  /** The redeem button is offered: not yet redeemed, and at least one action done. */
  predicate CanRedeem(e: Entry) {
    !Truthy(e.engagement.discountRedeemed) && (Truthy(e.engagement.googleReviewed) || Truthy(e.engagement.instagramFollowed))
  }

  /** `customers.map(...)`: the entries with the redeemed id get the redemption fields, the rest are kept. */
  function RedeemLocal(entries: seq<Entry>, id: Id, at: Timestamp): (r: seq<Entry>)
    ensures |r| == |entries|
    ensures forall k :: 0 <= k < |r| ==> r[k].customer == entries[k].customer
    ensures forall k :: 0 <= k < |r| && entries[k].customer.id != id ==> r[k] == entries[k]
    ensures forall k :: 0 <= k < |r| && entries[k].customer.id == id ==>
              r[k].engagement == Apply(entries[k].engagement, Redemption, at)
  {
    seq(|entries|, k requires 0 <= k < |entries| =>
      if entries[k].customer.id == id
      then Entry(entries[k].customer, Apply(entries[k].engagement, Redemption, at))
      else entries[k])
  }

  /**
   * After a redemption the redeemed customer is no longer offered the button,
   * the flags of the actions are kept, and every other entry is offered exactly
   * as before.
   */
  lemma RedeemWithdrawsOffer(entries: seq<Entry>, id: Id, at: Timestamp)
    ensures var r := RedeemLocal(entries, id, at);
            forall k :: 0 <= k < |r| ==>
              && (entries[k].customer.id == id ==> !CanRedeem(r[k]) && Truthy(r[k].engagement.discountRedeemed))
              && (entries[k].customer.id != id ==> CanRedeem(r[k]) == CanRedeem(entries[k]))
              && r[k].engagement.googleReviewed == entries[k].engagement.googleReviewed
              && r[k].engagement.instagramFollowed == entries[k].engagement.instagramFollowed
  {
    var r := RedeemLocal(entries, id, at);
    forall k | 0 <= k < |r| && entries[k].customer.id == id
      ensures r[k].engagement.googleReviewed == entries[k].engagement.googleReviewed
      ensures r[k].engagement.instagramFollowed == entries[k].engagement.instagramFollowed
      ensures Truthy(r[k].engagement.discountRedeemed)
    {
      assert Flag(r[k].engagement, GoogleReview) == Flag(entries[k].engagement, GoogleReview);
      assert Flag(r[k].engagement, InstagramFollow) == Flag(entries[k].engagement, InstagramFollow);
      assert Flag(r[k].engagement, Redemption) == Some(true);
    }
  }

  /** Redeeming twice is redeeming once at the later time: the redemption time is overwritten. */
  lemma RedeemTwice(entries: seq<Entry>, id: Id, first: Timestamp, second: Timestamp)
    ensures RedeemLocal(RedeemLocal(entries, id, first), id, second) == RedeemLocal(entries, id, second)
  {
    var once := RedeemLocal(entries, id, first);
    var twice := RedeemLocal(once, id, second);
    var direct := RedeemLocal(entries, id, second);
    forall k | 0 <= k < |entries| ensures twice[k] == direct[k] {
      if entries[k].customer.id == id {
        var a := Apply(Apply(entries[k].engagement, Redemption, first), Redemption, second);
        var b := Apply(entries[k].engagement, Redemption, second);
        assert a == b by {
          assert Flag(a, GoogleReview) == Flag(b, GoogleReview) && Stamp(a, GoogleReview) == Stamp(b, GoogleReview);
          assert Flag(a, InstagramFollow) == Flag(b, InstagramFollow) && Stamp(a, InstagramFollow) == Stamp(b, InstagramFollow);
          assert Flag(a, Redemption) == Flag(b, Redemption) && Stamp(a, Redemption) == Stamp(b, Redemption);
        }
      }
    }
  }
}
