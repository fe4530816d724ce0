/** deleteBucket: list the objects page by page and delete each one, then
    list the object versions page by page and delete each one, then delete
    the bucket. The first SdkClientException ends the run with false. */
module BucketSweep {
  import opened Java
  import opened Sdk

  /** The calls a stretch of the run issued and whether none of them failed. */
  datatype Sweep = Sweep(calls: seq<Call>, ok: bool)

  datatype Kind = Objects | Versions

  /** A call the sweep of `kind` over bucket `b` makes: a listing or a
      deletion of that kind, on that bucket. */
  predicate IsSweepCall(c: Call, kind: Kind, b: string) {
    match c
    case ListObjects(x) => kind == Objects && x == b
    case ListNextBatchOfObjects(x) => kind == Objects && x == b
    case DeleteObject(x, _) => kind == Objects && x == b
    case ListVersions(x) => kind == Versions && x == b
    case ListNextBatchOfVersions(x) => kind == Versions && x == b
    case DeleteVersion(x, _, _) => kind == Versions && x == b
    case _ => false
  }

  predicate IsListing(c: Call) {
    c.ListObjects? || c.ListNextBatchOfObjects? || c.ListVersions? || c.ListNextBatchOfVersions?
  }

  predicate IsDeletion(c: Call) {
    c.DeleteObject? || c.DeleteVersion?
  }

  function KindOf(listing: Call): Kind
    requires IsListing(listing)
  {
    if listing.ListObjects? || listing.ListNextBatchOfObjects? then Objects else Versions
  }

  /** The deletions a successful listing reply calls for, in listing order:
      one deleteObject per object summary, one deleteVersion per version
      summary. */
  function ListingDeletes(c: Call, r: Reply): seq<Call> {
    if r.SdkClientException? then []
    else match c
      case ListObjects(b) => seq(|r.objects|, i requires 0 <= i < |r.objects| => DeleteObject(b, r.objects[i].key))
      case ListNextBatchOfObjects(b) =>
        seq(|r.objects|, i requires 0 <= i < |r.objects| => DeleteObject(b, r.objects[i].key))
      case ListVersions(b) =>
        seq(|r.versions|, i requires 0 <= i < |r.versions| =>
          DeleteVersion(b, r.versions[i].key, r.versions[i].versionId))
      case ListNextBatchOfVersions(b) =>
        seq(|r.versions|, i requires 0 <= i < |r.versions| =>
          DeleteVersion(b, r.versions[i].key, r.versions[i].versionId))
      case _ => []
  }

  /** The listing call that fetches the page after one fetched by `c`. */
  function NextListing(c: Call): (n: Call)
    requires IsListing(c)
    ensures IsListing(n) && KindOf(n) == KindOf(c) && n.bucket == c.bucket
  {
    match c
    case ListObjects(b) => ListNextBatchOfObjects(b)
    case ListVersions(b) => ListNextBatchOfVersions(b)
    case _ => c
  }

  /** Issue `calls` in order, stopping at the first one that fails. */
  function SendAll(be: Backend, log: seq<Call>, calls: seq<Call>): Sweep
    decreases |calls|
  {
    if calls == [] then Sweep([], true)
    else if be.answer(log, calls[0]).SdkClientException? then Sweep([calls[0]], false)
    else
      var rest := SendAll(be, log + [calls[0]], calls[1..]);
      Sweep([calls[0]] + rest.calls, rest.ok)
  }

  /** The state of a loop sending `calls` one by one after `start`, with
      the first `i` sent and all of them successful: those calls followed
      by what SendAll does with the rest make up the whole run `whole`. */
  ghost predicate SendLoopState(be: Backend, start: seq<Call>, calls: seq<Call>, whole: Sweep, i: nat) {
    && i <= |calls|
    && var rest := SendAll(be, start + calls[..i], calls[i..]);
    && whole.calls == calls[..i] + rest.calls
    && whole.ok == rest.ok
  }

  lemma SendLoopStarts(be: Backend, start: seq<Call>, calls: seq<Call>)
    ensures SendLoopState(be, start, calls, SendAll(be, start, calls), 0)
  {
    assert start + calls[..0] == start && calls[0..] == calls && calls[..0] + SendAll(be, start, calls).calls == SendAll(be, start, calls).calls;
  }

  /** Sending the i-th call either raises, and the whole run ends with it,
      or succeeds and leaves the loop one call further on. */
  lemma SendLoopRound(be: Backend, start: seq<Call>, calls: seq<Call>, whole: Sweep, i: nat, reply: Reply)
    requires SendLoopState(be, start, calls, whole, i) && i < |calls|
    requires reply == be.answer(start + calls[..i], calls[i])
    ensures start + calls[..i] + [calls[i]] == start + calls[..i + 1]
    ensures reply.SdkClientException? ==> whole == Sweep(calls[..i + 1], false)
    ensures reply.Answer? ==> SendLoopState(be, start, calls, whole, i + 1)
  {
    assert calls[..i + 1] == calls[..i] + [calls[i]];
    ConcatAssoc(start, calls[..i], [calls[i]]);
    assert calls[i..][0] == calls[i] && calls[i..][1..] == calls[i + 1..];
    if reply.Answer? {
      ConcatAssoc(calls[..i], [calls[i]], SendAll(be, start + calls[..i + 1], calls[i + 1..]).calls);
    }
  }

  lemma SendLoopEnds(be: Backend, start: seq<Call>, calls: seq<Call>, whole: Sweep)
    requires SendLoopState(be, start, calls, whole, |calls|)
    ensures whole == Sweep(calls, true)
  {
    assert calls[..|calls|] == calls && calls[|calls|..] == [];
    assert calls + [] == calls;
  }

  lemma BudgetStep(be: Backend, log: seq<Call>, c: Call)
    ensures ListingBudget(be, log + [c]) + (if be.answer(log, c).Truncated() then 1 else 0) <= ListingBudget(be, log)
  {
    if be.answer(log, c).Truncated() {
      TruncatedLeavesBudget(be, log, c);
    }
  }

  /** One loop of deleteBucket from a listing call on: fetch the page, delete
      what it lists, and go on with the next page while pages are truncated. */
  function Pages(be: Backend, log: seq<Call>, listing: Call): Sweep
    requires IsListing(listing)
    decreases ListingBudget(be, log), 1
  {
    var r := be.answer(log, listing);
    if r.SdkClientException? then Sweep([listing], false)
    else
      BudgetStep(be, log, listing);
      var after := AfterListing(be, log + [listing], listing, r);
      Sweep([listing] + after.calls, after.ok)
  }

  /** The same loop from the point where `page`, fetched by `listing`, is in
      hand. */
  function AfterListing(be: Backend, log: seq<Call>, listing: Call, page: Reply): Sweep
    requires IsListing(listing) && page.Answer?
    decreases ListingBudget(be, log) + (if page.truncated then 1 else 0), 0
  {
    var deletes := SendAll(be, log, ListingDeletes(listing, page));
    if !deletes.ok then Sweep(deletes.calls, false)
    else if !page.truncated then Sweep(deletes.calls, true)
    else
      var rest := Pages(be, log + deletes.calls, NextListing(listing));
      Sweep(deletes.calls + rest.calls, rest.ok)
  }

  /** One round of the loop from a page in hand: its deletions fail, or
      the page was the last, or the next page is fetched. */
  lemma AfterListingRound(be: Backend, log: seq<Call>, listing: Call, page: Reply)
    requires IsListing(listing) && page.Answer?
    ensures var deletes := SendAll(be, log, ListingDeletes(listing, page));
      var next := NextListing(listing);
      var reply := be.answer(log + deletes.calls, next);
      var s := AfterListing(be, log, listing, page);
      && (!deletes.ok ==> s == Sweep(deletes.calls, false))
      && (deletes.ok && !page.truncated ==> s == Sweep(deletes.calls, true))
      && (deletes.ok && page.truncated && reply.SdkClientException? ==> s == Sweep(deletes.calls + [next], false))
      && (deletes.ok && page.truncated && reply.Answer? ==>
            var rest := AfterListing(be, log + deletes.calls + [next], next, reply);
            s == Sweep(deletes.calls + [next] + rest.calls, rest.ok))
  {
    var deletes := SendAll(be, log, ListingDeletes(listing, page));
    var next := NextListing(listing);
    if deletes.ok && page.truncated {
      var reply := be.answer(log + deletes.calls, next);
      if reply.Answer? {
        var rest := AfterListing(be, log + deletes.calls + [next], next, reply);
        ConcatAssoc(deletes.calls, [next], rest.calls);
      }
    }
  }

  /** deleteBucket(bucketName). */
  function DeleteBucketRun(be: Backend, log: seq<Call>, bucket: string): Run<bool> {
    var objects := Pages(be, log, ListObjects(bucket));
    if !objects.ok then Run(false, objects.calls)
    else
      var versions := Pages(be, log + objects.calls, ListVersions(bucket));
      if !versions.ok then Run(false, objects.calls + versions.calls)
      else
        var swept := objects.calls + versions.calls;
        var drop := DeleteBucket(bucket);
        Run(be.answer(log + swept, drop).Answer?, swept + [drop])
  }

  /** The deletions among `calls`, in order. */
  function Deletions(calls: seq<Call>): seq<Call> {
    if calls == [] then []
    else (if IsDeletion(calls[0]) then [calls[0]] else []) + Deletions(calls[1..])
  }

  /** The deletions called for by every listing reply `calls` received when
      issued after `log`, in order. */
  function ListedDeletes(be: Backend, log: seq<Call>, calls: seq<Call>): seq<Call>
    decreases |calls|
  {
    if calls == [] then []
    else ListingDeletes(calls[0], be.answer(log, calls[0])) + ListedDeletes(be, log + [calls[0]], calls[1..])
  }

  /** The reply to the last listing call among `calls`, or `page` if there is
      none. */
  function LastPage(be: Backend, log: seq<Call>, calls: seq<Call>, page: Reply): Reply
    decreases |calls|
  {
    if calls == [] then page
    else LastPage(be, log + [calls[0]], calls[1..], if IsListing(calls[0]) then be.answer(log, calls[0]) else page)
  }

  /** SendAll issues a prefix of its calls: all of them when none failed,
      otherwise up to and including the first failure. */
  lemma {:induction false} SendAllTrace(be: Backend, log: seq<Call>, calls: seq<Call>)
    ensures var s := SendAll(be, log, calls);
      && |s.calls| <= |calls| && s.calls == calls[..|s.calls|]
      && (s.ok ==> s.calls == calls && AllSucceeded(be, log, calls))
      && (!s.ok ==> FailedAtLast(be, log, s.calls))
    decreases |calls|
  {
    if calls != [] {
      var c := calls[0];
      OneCall(be, log, c);
      if be.answer(log, c).Answer? {
        var rest := SendAll(be, log + [c], calls[1..]);
        SendAllTrace(be, log + [c], calls[1..]);
        AllSucceededAppend(be, log, [c], rest.calls);
        if !rest.ok {
          FailedAtLastAppend(be, log, [c], rest.calls);
        }
        assert [c] + calls[1..] == calls;
      }
    }
  }

  lemma {:induction false} DeletionsAppend(a: seq<Call>, b: seq<Call>)
    ensures Deletions(a + b) == Deletions(a) + Deletions(b)
    decreases |a|
  {
    if a != [] {
      assert (a + b)[1..] == a[1..] + b;
      DeletionsAppend(a[1..], b);
    } else {
      assert a + b == b;
    }
  }

  lemma {:induction false} DeletionsOfDeletions(calls: seq<Call>)
    requires forall c :: c in calls ==> IsDeletion(c)
    ensures Deletions(calls) == calls
    decreases |calls|
  {
    if calls != [] {
      DeletionsOfDeletions(calls[1..]);
    }
  }

  lemma ListedDeletesCons(be: Backend, log: seq<Call>, c: Call, t: seq<Call>)
    ensures ListedDeletes(be, log, [c] + t) == ListingDeletes(c, be.answer(log, c)) + ListedDeletes(be, log + [c], t)
  {
    assert ([c] + t)[0] == c && ([c] + t)[1..] == t;
  }

  lemma {:induction false} ListedDeletesAppend(be: Backend, log: seq<Call>, a: seq<Call>, b: seq<Call>)
    ensures ListedDeletes(be, log, a + b) == ListedDeletes(be, log, a) + ListedDeletes(be, log + a, b)
    decreases |a|
  {
    if a == [] {
      assert a + b == b && log + a == log;
    } else {
      var c, t := a[0], a[1..];
      assert a == [c] + t;
      ConcatAssoc([c], t, b);
      ConcatAssoc(log, [c], t);
      ListedDeletesCons(be, log, c, t + b);
      ListedDeletesCons(be, log, c, t);
      ListedDeletesAppend(be, log + [c], t, b);
      ConcatAssoc(ListingDeletes(c, be.answer(log, c)), ListedDeletes(be, log + [c], t), ListedDeletes(be, log + a, b));
    }
  }

  lemma {:induction false} LastPageAppend(be: Backend, log: seq<Call>, a: seq<Call>, b: seq<Call>, page: Reply)
    ensures LastPage(be, log, a + b, page) == LastPage(be, log + a, b, LastPage(be, log, a, page))
    decreases |a|
  {
    if a != [] {
      assert (a + b)[0] == a[0] && (a + b)[1..] == a[1..] + b;
      LastPageAppend(be, log + [a[0]], a[1..], b, if IsListing(a[0]) then be.answer(log, a[0]) else page);
      assert log + [a[0]] + a[1..] == log + a;
    } else {
      assert a + b == b && log + a == log;
    }
  }

  /** Deletions call for no further deletions and leave the last page alone. */
  lemma {:induction false} DeletionsListNothing(be: Backend, log: seq<Call>, calls: seq<Call>, page: Reply)
    requires forall c :: c in calls ==> IsDeletion(c)
    ensures ListedDeletes(be, log, calls) == []
    ensures LastPage(be, log, calls, page) == page
    decreases |calls|
  {
    if calls != [] {
      assert IsDeletion(calls[0]) && forall c :: c in calls[1..] ==> c in calls;
      DeletionsListNothing(be, log + [calls[0]], calls[1..], page);
    }
  }

  lemma ListingDeletesShape(c: Call, r: Reply)
    requires IsListing(c)
    ensures forall d :: d in ListingDeletes(c, r) ==> IsDeletion(d) && IsSweepCall(d, KindOf(c), c.bucket)
  {
  }

  /** A sweep from a listing call issues only calls of that kind on that
      bucket, starting with the listing, and stops at its first failure; it
      lists again only after a truncated page, with the next-batch call. */
  lemma {:induction false} PagesTrace(be: Backend, log: seq<Call>, listing: Call)
    requires IsListing(listing)
    ensures var s := Pages(be, log, listing);
      && s.calls != [] && s.calls[0] == listing
      && (forall c :: c in s.calls ==> IsSweepCall(c, KindOf(listing), listing.bucket))
      && (s.ok ==> AllSucceeded(be, log, s.calls))
      && (!s.ok ==> FailedAtLast(be, log, s.calls))
      && (forall k :: 0 < k < |s.calls| && IsListing(s.calls[k]) ==>
            s.calls[k] == NextListing(listing) && LastPage(be, log, s.calls[..k], SdkClientException).Truncated())
    decreases ListingBudget(be, log), 1
  {
    var r := be.answer(log, listing);
    PagesRelists(be, log, listing);
    OneCall(be, log, listing);
    if r.Answer? {
      BudgetStep(be, log, listing);
      var after := AfterListing(be, log + [listing], listing, r);
      AfterListingTrace(be, log + [listing], listing, r);
      AllSucceededAppend(be, log, [listing], after.calls);
      if !after.ok {
        FailedAtLastAppend(be, log, [listing], after.calls);
      }
    }
  }

  lemma {:induction false} AfterListingTrace(be: Backend, log: seq<Call>, listing: Call, page: Reply)
    requires IsListing(listing) && page.Answer?
    ensures var s := AfterListing(be, log, listing, page);
      && (forall c :: c in s.calls ==> IsSweepCall(c, KindOf(listing), listing.bucket))
      && (s.ok ==> AllSucceeded(be, log, s.calls))
      && (!s.ok ==> FailedAtLast(be, log, s.calls))
    decreases ListingBudget(be, log) + (if page.truncated then 1 else 0), 0
  {
    var todo := ListingDeletes(listing, page);
    var deletes := SendAll(be, log, todo);
    SendAllTrace(be, log, todo);
    ListingDeletesShape(listing, page);
    assert forall c :: c in deletes.calls ==> c in todo;
    if deletes.ok && page.truncated {
      var next := NextListing(listing);
      var rest := Pages(be, log + todo, next);
      PagesTrace(be, log + todo, next);
      AllSucceededAppend(be, log, todo, rest.calls);
      if !rest.ok {
        FailedAtLastAppend(be, log, todo, rest.calls);
      }
    }
  }

  /** Every listing among `calls`, issued after `log` with `page` the page
      in hand, is the follow-up call `next`, issued when the page before it
      was truncated. */
  ghost predicate RelistsOnlyWhenTruncated(be: Backend, log: seq<Call>, calls: seq<Call>, page: Reply, next: Call) {
    forall k :: 0 <= k < |calls| && IsListing(calls[k]) ==>
      calls[k] == next && LastPage(be, log, calls[..k], page).Truncated()
  }

  /** From a page in hand, the loop fetches again only after a truncated
      page, and always with the next-batch call of the same kind. */
  lemma {:induction false} AfterListingRelists(be: Backend, log: seq<Call>, listing: Call, page: Reply)
    requires IsListing(listing) && page.Answer?
    ensures RelistsOnlyWhenTruncated(be, log, AfterListing(be, log, listing, page).calls, page, NextListing(listing))
    decreases ListingBudget(be, log) + (if page.truncated then 1 else 0), 0
  {
    var todo := ListingDeletes(listing, page);
    var deletes := SendAll(be, log, todo);
    SendAllTrace(be, log, todo);
    ListingDeletesShape(listing, page);
    if deletes.ok && page.truncated {
      var next := NextListing(listing);
      PagesRelists(be, log + todo, next);
      assert NextListing(next) == next;
      DeletesThenRelists(be, log, todo, Pages(be, log + todo, next).calls, page, next);
    } else {
      assert forall c :: c in deletes.calls ==> IsDeletion(c);
    }
  }

  /** A page's deletions followed by a sweep from the follow-up listing
      list again only after truncated pages. */
  lemma DeletesThenRelists(be: Backend, log: seq<Call>, todo: seq<Call>, rest: seq<Call>, page: Reply, next: Call)
    requires forall c :: c in todo ==> IsDeletion(c)
    requires page.Truncated() && rest != [] && rest[0] == next
    requires forall k :: 0 < k < |rest| && IsListing(rest[k]) ==>
               rest[k] == next && LastPage(be, log + todo, rest[..k], SdkClientException).Truncated()
    ensures RelistsOnlyWhenTruncated(be, log, todo + rest, page, next)
  {
    var calls := todo + rest;
    DeletionsListNothing(be, log, todo, page);
    assert forall i :: 0 <= i < |todo| ==> calls[i] == todo[i] && todo[i] in todo;
    forall k | 0 <= k < |calls| && IsListing(calls[k])
      ensures calls[k] == next && LastPage(be, log, calls[..k], page).Truncated()
    {
      var j := k - |todo|;
      assert calls[..k] == todo + rest[..j];
      LastPageAppend(be, log, todo, rest[..j], page);
      if 0 < j {
        var t := rest[..j];
        assert t == [t[0]] + t[1..];
        LastPageCons(be, log + todo, t[0], t[1..], page);
        LastPageCons(be, log + todo, t[0], t[1..], SdkClientException);
      }
    }
  }

  /** A sweep from a listing call lists again only after a truncated page,
      each time with the next-batch call of the same kind. */
  lemma {:induction false} PagesRelists(be: Backend, log: seq<Call>, listing: Call)
    requires IsListing(listing)
    ensures var s := Pages(be, log, listing);
      && s.calls != [] && s.calls[0] == listing
      && forall k :: 0 < k < |s.calls| && IsListing(s.calls[k]) ==>
           s.calls[k] == NextListing(listing) && LastPage(be, log, s.calls[..k], SdkClientException).Truncated()
    decreases ListingBudget(be, log), 1
  {
    var r := be.answer(log, listing);
    var calls := Pages(be, log, listing).calls;
    if r.Answer? {
      BudgetStep(be, log, listing);
      var after := AfterListing(be, log + [listing], listing, r);
      AfterListingRelists(be, log + [listing], listing, r);
      assert calls == [listing] + after.calls;
      forall k | 0 < k < |calls| && IsListing(calls[k])
        ensures calls[k] == NextListing(listing) && LastPage(be, log, calls[..k], SdkClientException).Truncated()
      {
        assert calls[k] == after.calls[k - 1];
        assert calls[..k] == [listing] + after.calls[..k - 1];
        LastPageCons(be, log, listing, after.calls[..k - 1], SdkClientException);
      }
    }
  }

  /** A sweep that succeeded deleted exactly what its pages listed, in
      listing order, and its last page was not truncated. */
  lemma {:induction false} PagesDeleteListed(be: Backend, log: seq<Call>, listing: Call)
    requires IsListing(listing) && Pages(be, log, listing).ok
    ensures var s := Pages(be, log, listing);
      && Deletions(s.calls) == ListedDeletes(be, log, s.calls)
      && !LastPage(be, log, s.calls, SdkClientException).Truncated()
    decreases ListingBudget(be, log), 1
  {
    var r := be.answer(log, listing);
    BudgetStep(be, log, listing);
    var after := AfterListing(be, log + [listing], listing, r);
    AfterListingDeletesListed(be, log + [listing], listing, r);
    var calls := [listing] + after.calls;
    assert calls[0] == listing && calls[1..] == after.calls;
  }

  lemma {:induction false} AfterListingDeletesListed(be: Backend, log: seq<Call>, listing: Call, page: Reply)
    requires IsListing(listing) && page.Answer? && AfterListing(be, log, listing, page).ok
    ensures var s := AfterListing(be, log, listing, page);
      && Deletions(s.calls) == ListingDeletes(listing, page) + ListedDeletes(be, log, s.calls)
      && !LastPage(be, log, s.calls, page).Truncated()
    decreases ListingBudget(be, log) + (if page.truncated then 1 else 0), 0
  {
    var todo := ListingDeletes(listing, page);
    SendAllTrace(be, log, todo);
    ListingDeletesShape(listing, page);
    DeletionsOfDeletions(todo);
    DeletionsListNothing(be, log, todo, page);
    if page.truncated {
      var next := NextListing(listing);
      var rest := Pages(be, log + todo, next);
      PagesTrace(be, log + todo, next);
      PagesDeleteListed(be, log + todo, next);
      SweepTailDeletesListed(be, log, todo, rest.calls, page);
    } else {
      assert todo + [] == todo;
    }
  }

  /** The deletions of one page followed by a sweep from the next listing
      delete what the page and the sweep's own pages listed, and end on the
      sweep's last page. */
  lemma SweepTailDeletesListed(be: Backend, log: seq<Call>, todo: seq<Call>, rest: seq<Call>, page: Reply)
    requires Deletions(todo) == todo && ListedDeletes(be, log, todo) == [] && LastPage(be, log, todo, page) == page
    requires rest != [] && IsListing(rest[0])
    requires Deletions(rest) == ListedDeletes(be, log + todo, rest)
    requires !LastPage(be, log + todo, rest, SdkClientException).Truncated()
    ensures Deletions(todo + rest) == todo + ListedDeletes(be, log, todo + rest)
    ensures !LastPage(be, log, todo + rest, page).Truncated()
  {
    DeletionsAppend(todo, rest);
    ListedDeletesAppend(be, log, todo, rest);
    LastPageAppend(be, log, todo, rest, page);
    assert [] + ListedDeletes(be, log + todo, rest) == ListedDeletes(be, log + todo, rest);
    assert rest == [rest[0]] + rest[1..];
    LastPageCons(be, log + todo, rest[0], rest[1..], page);
    LastPageCons(be, log + todo, rest[0], rest[1..], SdkClientException);
  }

  lemma LastPageCons(be: Backend, log: seq<Call>, c: Call, t: seq<Call>, page: Reply)
    ensures LastPage(be, log, [c] + t, page)
            == LastPage(be, log + [c], t, if IsListing(c) then be.answer(log, c) else page)
  {
    assert ([c] + t)[0] == c && ([c] + t)[1..] == t;
  }

  /** deleteBucket starts by listing the objects of the bucket it was given
      and never addresses any other bucket. */
  lemma DeleteBucketOnlyTouchesBucket(be: Backend, log: seq<Call>, bucket: string)
    ensures var r := DeleteBucketRun(be, log, bucket);
      && r.calls != [] && r.calls[0] == ListObjects(bucket)
      && (forall c :: c in r.calls ==>
            IsSweepCall(c, Objects, bucket) || IsSweepCall(c, Versions, bucket) || c == DeleteBucket(bucket))
  {
    var objects := Pages(be, log, ListObjects(bucket));
    PagesTrace(be, log, ListObjects(bucket));
    if objects.ok {
      PagesTrace(be, log + objects.calls, ListVersions(bucket));
    }
  }

  lemma PagesStops(be: Backend, log: seq<Call>, listing: Call)
    requires IsListing(listing)
    ensures var s := Pages(be, log, listing);
      StopsAtFirstFailure(be, log, s.calls, s.ok)
  {
    PagesTrace(be, log, listing);
  }

  /** deleteBucket returns true exactly when no call failed, and otherwise
      stops at its first failure. */
  lemma DeleteBucketStopsAtFirstFailure(be: Backend, log: seq<Call>, bucket: string, r: Run<bool>)
    requires r == DeleteBucketRun(be, log, bucket)
    ensures StopsAtFirstFailure(be, log, r.calls, r.value)
  {
    var objects := Pages(be, log, ListObjects(bucket));
    PagesStops(be, log, ListObjects(bucket));
    if objects.ok {
      var versions := Pages(be, log + objects.calls, ListVersions(bucket));
      PagesStops(be, log + objects.calls, ListVersions(bucket));
      StopsAfterSuccess(be, log, objects.calls, versions.calls, versions.ok);
      if versions.ok {
        var drop := DeleteBucket(bucket);
        var swept := objects.calls + versions.calls;
        OneCallStops(be, log + swept, drop);
        StopsAfterSuccess(be, log, swept, [drop], r.value);
      }
    }
  }

  /** When deleteBucket returns true, every object and every version any
      page listed was deleted, in listing order, nothing else was deleted,
      and deleting the bucket came last. */
  lemma DeleteBucketDeletesEverythingListed(be: Backend, log: seq<Call>, bucket: string)
    requires DeleteBucketRun(be, log, bucket).value
    ensures var r := DeleteBucketRun(be, log, bucket);
      && r.calls[|r.calls| - 1] == DeleteBucket(bucket)
      && Deletions(r.calls) == ListedDeletes(be, log, r.calls)
  {
    var objects := Pages(be, log, ListObjects(bucket));
    var versions := Pages(be, log + objects.calls, ListVersions(bucket));
    assert objects.ok && versions.ok;
    PagesDeleteListed(be, log, ListObjects(bucket));
    PagesDeleteListed(be, log + objects.calls, ListVersions(bucket));
    SweepsThenDropDeleteListed(be, log, objects.calls, versions.calls, DeleteBucket(bucket));
  }

  /** A deleteBucket that returned true swept the objects and then the
      versions, each sweep starting with its first listing and running until
      a page that was not truncated, and then deleted the bucket. */
  lemma DeleteBucketSweepsObjectsThenVersions(be: Backend, log: seq<Call>, bucket: string)
    requires DeleteBucketRun(be, log, bucket).value
    ensures var r := DeleteBucketRun(be, log, bucket);
      var o := Pages(be, log, ListObjects(bucket)).calls;
      var v := Pages(be, log + o, ListVersions(bucket)).calls;
      && r.calls == o + v + [DeleteBucket(bucket)]
      && o != [] && o[0] == ListObjects(bucket)
      && v != [] && v[0] == ListVersions(bucket)
      && (forall c :: c in o ==> IsSweepCall(c, Objects, bucket))
      && (forall c :: c in v ==> IsSweepCall(c, Versions, bucket))
      && !LastPage(be, log, o, SdkClientException).Truncated()
      && !LastPage(be, log + o, v, SdkClientException).Truncated()
  {
    var o := Pages(be, log, ListObjects(bucket)).calls;
    PagesTrace(be, log, ListObjects(bucket));
    PagesTrace(be, log + o, ListVersions(bucket));
    PagesDeleteListed(be, log, ListObjects(bucket));
    PagesDeleteListed(be, log + o, ListVersions(bucket));
  }

  /** Two sweeps that each deleted what they listed, followed by a call that
      neither lists nor deletes, together deleted what they listed. */
  lemma SweepsThenDropDeleteListed(be: Backend, log: seq<Call>, a: seq<Call>, b: seq<Call>, drop: Call)
    requires Deletions(a) == ListedDeletes(be, log, a)
    requires Deletions(b) == ListedDeletes(be, log + a, b)
    requires !IsDeletion(drop) && !IsListing(drop)
    ensures Deletions(a + b + [drop]) == ListedDeletes(be, log, a + b + [drop])
  {
    DeletionsAppend(a, b);
    DeletionsAppend(a + b, [drop]);
    ListedDeletesAppend(be, log, a, b);
    ListedDeletesAppend(be, log, a + b, [drop]);
    ListedDeletesCons(be, log + (a + b), drop, []);
    assert [drop] + [] == [drop];
    assert Deletions([drop]) == [] by {
      assert [drop][1..] == [];
    }
  }
}
