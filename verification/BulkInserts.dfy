/** Accounting of `Store.BulkInsert` in internal/storage/mongo.go. */
module BulkInserts {
  import opened Models

  /**
   * What the driver reports for one unordered insert: success, a bulk-write exception listing the
   * indices of its write errors, or an error for the whole call, after which the server may hold
   * any subset of the documents.
   */
  datatype Outcome =
    | AllInserted
    | WriteErrors(failing: seq<nat>)
    | CallFailed(stored: set<nat>)

  /** The count `BulkInsert` returns for a batch of n events, as a signed Go integer. */
  function Credited(o: Outcome, n: nat): int {
    match o
    case AllInserted => n
    case WriteErrors(failing) => n - |failing|
    case CallFailed(_) => 0
  }

  predicate IsStored(o: Outcome, i: nat) {
    match o
    case AllInserted => true
    case WriteErrors(failing) => i !in failing
    case CallFailed(stored) => i in stored
  }

  /** The documents of the batch that the collection holds afterwards. */
  function Stored(docs: seq<Event>, o: Outcome): seq<Event> {
    if docs == [] then []
    else
      var n := |docs| - 1;
      Stored(docs[..n], o) + if IsStored(o, n) then [docs[n]] else []
  }

  /** The collection gets, in order, exactly the documents without a write error, and after an error of
      the whole call those that the server kept. */
  lemma StoredExactly(docs: seq<Event>, d: Event, o: Outcome)
    ensures Stored([], o) == []
    ensures Stored(docs + [d], o) ==
            Stored(docs, o) +
            match o
            case AllInserted => [d]
            case WriteErrors(failing) => if |docs| in failing then [] else [d]
            case CallFailed(stored) => if |docs| in stored then [d] else []
  {
    assert (docs + [d])[..|docs|] == docs;
  }

  predicate Distinct(s: seq<nat>) {
    forall i, j | 0 <= i < j < |s| :: s[i] != s[j]
  }

  /** The outcomes that credit every stored document: no whole-call error left a document behind,
      and every write error names a document of its own. */
  predicate Exact(o: Outcome, n: nat) {
    match o
    case AllInserted => true
    case WriteErrors(failing) => Proper(failing, n)
    case CallFailed(stored) => forall i | 0 <= i < n :: i !in stored
  }

  function Below(n: nat, s: set<nat>): set<nat> {
    set i: nat | 0 <= i < n && i in s
  }

  function Elements(s: seq<nat>): set<nat> {
    set x | x in s
  }

  lemma {:induction false} StoredCount(docs: seq<Event>, o: Outcome)
    ensures o.AllInserted? ==> Stored(docs, o) == docs
    ensures o.WriteErrors? ==> |Stored(docs, o)| == |docs| - |Below(|docs|, Elements(o.failing))|
    ensures o.CallFailed? ==> |Stored(docs, o)| == |Below(|docs|, o.stored)|
  {
    if |docs| > 0 {
      var n := |docs| - 1;
      StoredCount(docs[..n], o);
      match o {
        case AllInserted =>
          assert docs == docs[..n] + [docs[n]];
        case WriteErrors(failing) => BelowStep(n, Elements(failing));
        case CallFailed(stored) => BelowStep(n, stored);
      }
    }
  }

  lemma BelowStep(n: nat, s: set<nat>)
    ensures |Below(n + 1, s)| == |Below(n, s)| + if n in s then 1 else 0
  {
    if n in s {
      assert Below(n + 1, s) == Below(n, s) + {n};
    } else {
      assert Below(n + 1, s) == Below(n, s);
    }
  }

  lemma BelowWith(n: nat, s: set<nat>, x: nat)
    ensures |Below(n, s + {x})| == |Below(n, s)| + if x < n && x !in s then 1 else 0
  {
    if x < n && x !in s {
      assert Below(n, s + {x}) == Below(n, s) + {x};
    } else {
      assert Below(n, s + {x}) == Below(n, s);
    }
  }

  /** The write errors that name a document of their own. */
  predicate Proper(failing: seq<nat>, n: nat) {
    Distinct(failing) && forall i | 0 <= i < |failing| :: failing[i] < n
  }

  lemma ProperStep(init: seq<nat>, x: nat, n: nat)
    ensures Proper(init + [x], n) <==> Proper(init, n) && x < n && x !in Elements(init)
  {
    var s := init + [x];
    assert forall i | 0 <= i < |init| :: s[i] == init[i];
    assert s[|init|] == x;
    if x in Elements(init) {
      var i :| 0 <= i < |init| && init[i] == x;
      assert s[i] == s[|init|];
    }
  }

  lemma {:induction false} FailingCount(n: nat, failing: seq<nat>)
    ensures |Below(n, Elements(failing))| <= |failing|
    ensures |Below(n, Elements(failing))| == |failing| <==> Proper(failing, n)
  {
    if failing == [] {
      assert Below(n, Elements(failing)) == {};
    } else {
      var m := |failing| - 1;
      FailingCount(n, failing[..m]);
      assert failing == failing[..m] + [failing[m]];
      assert Elements(failing) == Elements(failing[..m]) + {failing[m]};
      BelowWith(n, Elements(failing[..m]), failing[m]);
      ProperStep(failing[..m], failing[m], n);
    }
  }

  /** The returned count never exceeds the stored documents, and equals them just on exact outcomes. */
  lemma CreditVersusStored(docs: seq<Event>, o: Outcome)
    ensures Credited(o, |docs|) <= |Stored(docs, o)|
    ensures Credited(o, |docs|) == |Stored(docs, o)| <==> Exact(o, |docs|)
  {
    StoredCount(docs, o);
    match o {
      case AllInserted =>
      case WriteErrors(failing) => FailingCount(|docs|, failing);
      case CallFailed(stored) =>
        if !Exact(o, |docs|) {
          var i: nat :| i < |docs| && i in stored;
          assert i in Below(|docs|, stored);
        } else {
          assert Below(|docs|, stored) == {};
        }
    }
  }

  /** Nothing is stored that was not in the batch, nor more often than it was. */
  lemma {:induction false} StoredIsSubBag(docs: seq<Event>, o: Outcome)
    ensures multiset(Stored(docs, o)) <= multiset(docs)
  {
    if |docs| > 0 {
      var n := |docs| - 1;
      StoredIsSubBag(docs[..n], o);
      assert docs == docs[..n] + [docs[n]];
      assert multiset(docs) == multiset(docs[..n]) + multiset{docs[n]};
    }
  }
}
