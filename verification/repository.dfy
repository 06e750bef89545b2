/** The subscription store (SubscriptionRepository.java) over an abstract
    keyed collection. Keying by email makes the unique index on email part
    of the representation. */
module Repository {
  import opened Wrappers
  import opened SubscriptionModel
  import opened Exceptions

  type Store = map<Email, Subscription>

  /** Every record sits under its own email. */
  predicate Keyed(store: Store) {
    forall e :: e in store ==> store[e].email == e
  }

  /** A keyed store of records the service can produce. */
  predicate ValidStore(store: Store, maxErrors: Int32) {
    Keyed(store) && forall e :: e in store ==> Valid(store[e], maxErrors)
  }

  /** The store never holds two records with one email. */
  lemma AtMostOnePerEmail(store: Store, a: Subscription, b: Subscription)
    requires Keyed(store)
    requires a in store.Values && b in store.Values && a.email == b.email
    ensures a == b
  {
    var ka :| ka in store && store[ka] == a;
    var kb :| kb in store && store[kb] == b;
  }

  function ExistsByEmail(store: Store, email: Email): (r: bool)
    requires Keyed(store)
    ensures r <==> exists s :: s in store.Values && s.email == email
    ensures r <==> email in store
  {
    if email in store then
      assert store[email] in store.Values;
      true
    else
      false
  }

  function FindByEmailAndNumTokenErrorsLessThan(store: Store, email: Email, numTokenErrors: Int32): (r: Option<Subscription>)
    requires Keyed(store)
    ensures r.Some? <==> exists s :: s in store.Values && s.email == email && s.numTokenErrors < numTokenErrors
    ensures r.Some? ==> r.value in store.Values && r.value.email == email && r.value.numTokenErrors < numTokenErrors
    ensures r.Some? <==> email in store && store[email].numTokenErrors < numTokenErrors
    ensures r.Some? ==> r.value == store[email]
  {
    if email in store && store[email].numTokenErrors < numTokenErrors then
      assert store[email] in store.Values;
      Some(store[email])
    else
      None
  }

  /** Saving a record that has no id yet: an insert, which the unique index
      on email refuses when the email is taken. */
  function SaveNew(store: Store, s: Subscription): (r: Result<Store, Error>)
    requires Keyed(store)
    ensures r.Failure? <==> exists t :: t in store.Values && t.email == s.email
    ensures r.Failure? ==> r.error == DuplicateKey
    ensures r.Success? ==> Keyed(r.value) && r.value.Keys == store.Keys + {s.email}
    ensures r.Success? ==> r.value[s.email] == s && forall e :: e in store ==> r.value[e] == store[e]
  {
    if s.email in store then
      assert store[s.email] in store.Values;
      Failure(DuplicateKey)
    else Success(store[s.email := s])
  }

  /** A successful insert adds exactly one record. */
  lemma SaveNewAddsOne(store: Store, s: Subscription)
    requires Keyed(store) && SaveNew(store, s).Success?
    ensures |SaveNew(store, s).value| == |store| + 1
  {
    assert s.email !in store;
  }

  /** Saving a record that was read from the store: it replaces the record
      with its email, and no other record changes. */
  function Save(store: Store, s: Subscription): (r: Store)
    requires Keyed(store)
    ensures Keyed(r)
    ensures r.Keys == store.Keys + {s.email}
    ensures r[s.email] == s
    ensures forall e :: e in store && e != s.email ==> r[e] == store[e]
  {
    store[s.email := s]
  }

  function Delete(store: Store, s: Subscription): (r: Store)
    requires Keyed(store)
    ensures Keyed(r)
    ensures r.Keys == store.Keys - {s.email}
    ensures forall e :: e in r ==> r[e] == store[e]
  {
    store - {s.email}
  }

  /** `order` lists the store's emails once each: the order in which the
      store returns records. */
  predicate IsEnumeration(store: Store, order: seq<Email>) {
    && (forall i :: 0 <= i < |order| ==> order[i] in store)
    && (forall e :: e in store ==> e in order)
    && (forall i, j :: 0 <= i < j < |order| ==> order[i] != order[j])
  }

  /** The owner-confirmed records, in store order. */
  function Approved(store: Store, order: seq<Email>): (r: seq<Subscription>)
    ensures |r| <= |order|
    ensures forall i :: 0 <= i < |r| ==> r[i] in store.Values && r[i].confirmedByOwner
  {
    if |order| == 0 then []
    else
      var rest := Approved(store, order[1..]);
      if order[0] in store && store[order[0]].confirmedByOwner then
        assert store[order[0]] in store.Values;
        [store[order[0]]] + rest
      else
        rest
  }

  /** Every owner-confirmed record is in `Approved`. */
  lemma {:induction false} ApprovedComplete(store: Store, order: seq<Email>, e: Email)
    requires e in order && e in store && store[e].confirmedByOwner
    ensures store[e] in Approved(store, order)
  {
    if order[0] != e {
      ApprovedComplete(store, order[1..], e);
    }
  }

  /** A page of a paged query, with Spring Data's `hasNext`. */
  datatype Page = Page(content: seq<Subscription>, hasNext: bool)

  function Min(a: int, b: int): int {
    if a < b then a else b
  }

  /** Spring Data's page count: the total divided by the page size, rounded up. */
  function TotalPages(total: nat, pageSize: nat): nat
    requires pageSize > 0
  {
    (total + pageSize - 1) / pageSize
  }

  /** A page after `pageIndex` exists exactly when the records do not fit in
      the first `pageIndex + 1` pages. */
  lemma HasNextBound(pageIndex: nat, pageSize: nat, total: nat)
    requires pageSize > 0
    ensures pageIndex + 1 < TotalPages(total, pageSize) <==> (pageIndex + 1) * pageSize < total
  {
    var q := TotalPages(total, pageSize);
    var a := pageIndex + 1;
    assert q * pageSize <= total + pageSize - 1 < (q + 1) * pageSize;
    if a < q {
      assert a + 1 <= q;
      MulMono(a + 1, q, pageSize);
    }
    if a * pageSize < total {
      assert (a + 1) * pageSize < (q + 1) * pageSize;
      if q < a {
        MulMono(q + 1, a, pageSize);
      }
      if q == a {
        assert false;
      }
    }
  }

  lemma MulMono(a: nat, b: nat, k: nat)
    requires a <= b
    ensures a * k <= b * k
  {
  }

  /** `findAllByConfirmedByOwnerIsTrue` for page `pageIndex` of size
      `pageSize`. */
  function FindAllByConfirmedByOwnerIsTrue(store: Store, order: seq<Email>, pageIndex: nat, pageSize: nat): (p: Page)
    requires pageSize > 0
    ensures var all := Approved(store, order);
      p.content == all[Min(pageIndex * pageSize, |all|)..Min((pageIndex + 1) * pageSize, |all|)]
    ensures p.hasNext <==> (pageIndex + 1) * pageSize < |Approved(store, order)|
    ensures |p.content| <= pageSize
    ensures forall s :: s in p.content ==> s in store.Values && s.confirmedByOwner
  {
    MulMono(0, pageIndex, pageSize);
    var all := Approved(store, order);
    HasNextBound(pageIndex, pageSize, |all|);
    var lo := Min(pageIndex * pageSize, |all|);
    var hi := Min((pageIndex + 1) * pageSize, |all|);
    assert lo <= hi by {
      MulMono(pageIndex, pageIndex + 1, pageSize);
    }
    Page(all[lo..hi], pageIndex + 1 < TotalPages(|all|, pageSize))
  }

  /** The pages from `pageIndex` on, read the way the distribution loop
      reads them: the next page is fetched while the current one has a next. */
  function PagesFrom(store: Store, order: seq<Email>, pageSize: nat, pageIndex: nat): seq<Subscription>
    requires pageSize > 0
    decreases Max(|Approved(store, order)| - pageIndex * pageSize, 0)
  {
    var p := FindAllByConfirmedByOwnerIsTrue(store, order, pageIndex, pageSize);
    p.content + (if p.hasNext then PagesFrom(store, order, pageSize, pageIndex + 1) else [])
  }

  /** Pagination covers the approved records exactly: the pages from
      `pageIndex` on are the approved records from that page's first on. */
  lemma {:induction false} PagesFromCover(store: Store, order: seq<Email>, pageSize: nat, pageIndex: nat)
    requires pageSize > 0
    ensures var all := Approved(store, order);
      PagesFrom(store, order, pageSize, pageIndex) == all[Min(pageIndex * pageSize, |all|)..]
    decreases Max(|Approved(store, order)| - pageIndex * pageSize, 0)
  {
    MulMono(0, pageIndex, pageSize);
    var all := Approved(store, order);
    var p := FindAllByConfirmedByOwnerIsTrue(store, order, pageIndex, pageSize);
    var lo := Min(pageIndex * pageSize, |all|);
    var hi := Min((pageIndex + 1) * pageSize, |all|);
    assert (pageIndex + 1) * pageSize == pageIndex * pageSize + pageSize;
    assert PagesFrom(store, order, pageSize, pageIndex)
        == p.content + (if p.hasNext then PagesFrom(store, order, pageSize, pageIndex + 1) else []);
    if p.hasNext {
      PagesFromCover(store, order, pageSize, pageIndex + 1);
      SplitAt(all, lo, hi);
    } else {
      assert all[lo..] == all[lo..hi];
    }
  }

  lemma SplitAt<T>(s: seq<T>, lo: nat, hi: nat)
    requires lo <= hi <= |s|
    ensures s[lo..] == s[lo..hi] + s[hi..]
  {
  }

  /** All pages together are the approved records. */
  lemma PagesCoverApproved(store: Store, order: seq<Email>, pageSize: nat)
    requires pageSize > 0
    ensures PagesFrom(store, order, pageSize, 0) == Approved(store, order)
  {
    PagesFromCover(store, order, pageSize, 0);
  }
}
