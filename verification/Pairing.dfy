/** How the parts of a mail become payloads, and which original message ends up
    with which feedback report (parser/internal/mailx/mailx.go). What a part
    decodes to is given. */
module Pairing {
  import opened Reports

  /** One part of the mail. A payload part expands to documents or is unreadable;
      a broken part could not be read at all. */
  datatype Part =
    | Broken
    | Feedback(data: string)
    | Original(data: string)
    | Payload(docs: seq<Doc>)
    | Unreadable

  datatype Doc = Aggregate(data: string) | TlsRpt(data: string) | OtherKind

  datatype ForensicParts = ForensicParts(feedback: string, original: Option<string>)

  datatype Payloads = Payloads(aggregates: seq<string>, tls: seq<string>, forensic: seq<ForensicParts>)

  // --- where parts go, by position ---

  /** Positions of the feedback parts among the first n. */
  function Feedbacks(parts: seq<Part>, n: nat): (ps: seq<nat>)
    requires n <= |parts|
    ensures forall k :: 0 <= k < |ps| ==> ps[k] < n && parts[ps[k]].Feedback?
  {
    if n == 0 then [] else Feedbacks(parts, n - 1) + if parts[n - 1].Feedback? then [n - 1] else []
  }

  /** Positions of the originals that are kept: one is, when more feedback parts
      than kept originals came before it. */
  function Accepted(parts: seq<Part>, n: nat): (ps: seq<nat>)
    requires n <= |parts|
    ensures forall k :: 0 <= k < |ps| ==> ps[k] < n && parts[ps[k]].Original?
  {
    if n == 0 then []
    else
      var ps := Accepted(parts, n - 1);
      ps + if parts[n - 1].Original? && |ps| < |Feedbacks(parts, n - 1)| then [n - 1] else []
  }

  /** First in, first out: the k-th kept original goes to the k-th feedback. */
  function Paired(parts: seq<Part>, n: nat): seq<ForensicParts>
    requires n <= |parts|
  {
    var fs, os := Feedbacks(parts, n), Accepted(parts, n);
    seq(|fs|, k requires 0 <= k < |fs| =>
      ForensicParts(parts[fs[k]].data, if k < |os| then Some(parts[os[k]].data) else None))
  }

  lemma {:induction false} AcceptedFollows(parts: seq<Part>, n: nat)
    requires n <= |parts|
    ensures |Accepted(parts, n)| <= |Feedbacks(parts, n)|
    ensures forall k :: 0 <= k < |Accepted(parts, n)| ==> Feedbacks(parts, n)[k] < Accepted(parts, n)[k]
  {
    if n == 0 {
    } else {
      AcceptedFollows(parts, n - 1);
    }
  }

  function Kinds(docs: seq<Doc>, n: nat, tls: bool): seq<string>
    requires n <= |docs|
  {
    if n == 0 then []
    else Kinds(docs, n - 1, tls) + match docs[n - 1]
      case Aggregate(d) => if tls then [] else [d]
      case TlsRpt(d) => if tls then [d] else []
      case OtherKind => []
  }

  function Collected(parts: seq<Part>, n: nat, tls: bool): seq<string>
    requires n <= |parts|
  {
    if n == 0 then []
    else Collected(parts, n - 1, tls) + match parts[n - 1] case Payload(docs) => Kinds(docs, |docs|, tls) case _ => []
  }

  ghost predicate AnyFailed(parts: seq<Part>, n: nat)
    requires n <= |parts|
  {
    exists i :: 0 <= i < n && (parts[i].Broken? || parts[i].Unreadable?)
  }

  // --- the code ---

  /** The entries that have an original are the first m. */
  predicate OriginalsPrefix(forensic: seq<ForensicParts>, m: nat) {
    forall k :: 0 <= k < |forensic| ==> (forensic[k].original.Some? <==> k < m)
  }

  lemma PairedStep(parts: seq<Part>, n: nat)
    requires n < |parts|
    ensures |Accepted(parts, n)| <= |Paired(parts, n)| && OriginalsPrefix(Paired(parts, n), |Accepted(parts, n)|)
    ensures match parts[n]
      case Feedback(data) => Paired(parts, n + 1) == Paired(parts, n) + [ForensicParts(data, None)]
      case Original(data) =>
        var m := |Accepted(parts, n)|;
        if m < |Paired(parts, n)|
        then Paired(parts, n + 1) == Paired(parts, n)[m := Paired(parts, n)[m].(original := Some(data))]
        else Paired(parts, n + 1) == Paired(parts, n)
      case _ => Paired(parts, n + 1) == Paired(parts, n)
  {
    AcceptedFollows(parts, n);
  }

  /** The part walk. None is the error result: something was unreadable and
      nothing was found. */
  method ExtractPayloads(parts: seq<Part>) returns (out: Option<Payloads>)
    ensures var all := Payloads(Collected(parts, |parts|, false), Collected(parts, |parts|, true),
        Paired(parts, |parts|));
      out == if all == Payloads([], [], []) && AnyFailed(parts, |parts|) then None else Some(all)
  {
    hide Paired, Accepted, Feedbacks;
    var aggregates: seq<string>, tls: seq<string>, forensic: seq<ForensicParts>, failed := [], [], [], false;
    PairedNone(parts);
    for n := 0 to |parts|
      invariant aggregates == Collected(parts, n, false) && tls == Collected(parts, n, true)
      invariant forensic == Paired(parts, n)
      invariant failed <==> AnyFailed(parts, n)
    {
      PairedStep(parts, n);
      match parts[n] {
        case Broken => failed := true;
        case Unreadable => failed := true;
        case Feedback(data) =>
          forensic := forensic + [ForensicParts(data, None)];
        case Original(data) =>
          var i := 0;
          while i < |forensic| && forensic[i].original.Some?
            invariant 0 <= i <= |forensic| && i <= |Accepted(parts, n)|
          {
            i := i + 1;
          }
          if i < |forensic| {
            forensic := forensic[i := forensic[i].(original := Some(data))];
          }
        case Payload(docs) =>
          ghost var a, t := aggregates, tls;
          for j := 0 to |docs|
            invariant aggregates == a + Kinds(docs, j, false) && tls == t + Kinds(docs, j, true)
          {
            match docs[j] {
              case Aggregate(d) => aggregates := aggregates + [d];
              case TlsRpt(d) => tls := tls + [d];
              case OtherKind =>
            }
          }
      }
    }
    if aggregates == [] && tls == [] && forensic == [] && failed {
      return None;
    }
    return Some(Payloads(aggregates, tls, forensic));
  }

  lemma PairedNone(parts: seq<Part>)
    ensures Paired(parts, 0) == []
  {
  }

  /** Each document is collected under its own kind: a part that holds one adds it to
      that list and to no other, … */
  lemma OneDocument(d: string, parts: seq<Part>, n: nat)
    requires 0 < n <= |parts|
    ensures parts[n - 1] == Payload([Aggregate(d)]) ==>
      && Collected(parts, n, false) == Collected(parts, n - 1, false) + [d]
      && Collected(parts, n, true) == Collected(parts, n - 1, true)
    ensures parts[n - 1] == Payload([TlsRpt(d)]) ==>
      && Collected(parts, n, false) == Collected(parts, n - 1, false)
      && Collected(parts, n, true) == Collected(parts, n - 1, true) + [d]
    ensures parts[n - 1] == Payload([OtherKind]) || parts[n - 1] == Payload([]) || !parts[n - 1].Payload? ==>
      forall tls :: Collected(parts, n, tls) == Collected(parts, n - 1, tls)
  {
    hide Collected, Kinds;
    CollectedStep(d, parts, n, false);
    CollectedStep(d, parts, n, true);
  }

  lemma CollectedStep(d: string, parts: seq<Part>, n: nat, tls: bool)
    requires 0 < n <= |parts|
    ensures var before, after, p := Collected(parts, n - 1, tls), Collected(parts, n, tls), parts[n - 1];
      && (p == Payload([Aggregate(d)]) ==> after == before + if tls then [] else [d])
      && (p == Payload([TlsRpt(d)]) ==> after == before + if tls then [d] else [])
      && (p == Payload([OtherKind]) || p == Payload([]) || !p.Payload? ==> after == before)
  {
    KindsOfOne(Aggregate(d), tls);
    KindsOfOne(TlsRpt(d), tls);
    KindsOfOne(OtherKind, tls);
    hide Kinds;
  }

  lemma KindsOfOne(doc: Doc, tls: bool)
    ensures Kinds([], 0, tls) == []
    ensures Kinds([doc], 1, tls) == match doc
      case Aggregate(d) => if tls then [] else [d]
      case TlsRpt(d) => if tls then [d] else []
      case OtherKind => []
  {
    assert Kinds([doc], 0, tls) == [];
  }

  /** … and a container is collected like its documents one after the other. */
  lemma {:induction false} KindsConcat(a: seq<Doc>, b: seq<Doc>, tls: bool)
    ensures Kinds(a + b, |a + b|, tls) == Kinds(a, |a|, tls) + Kinds(b, |b|, tls)
  {
    if b == [] {
      assert a + b == a;
    } else {
      var n := |b| - 1;
      KindsConcat(a, b[..n], tls);
      KindsFront(a + b, a + b[..n], |a| + n, tls);
      KindsFront(b, b[..n], n, tls);
    }
  }

  lemma {:induction false} KindsFront(a: seq<Doc>, b: seq<Doc>, n: nat, tls: bool)
    requires n <= |a| && n <= |b| && forall i :: 0 <= i < n ==> a[i] == b[i]
    ensures Kinds(a, n, tls) == Kinds(b, n, tls)
  {
    if n == 0 {
    } else {
      KindsFront(a, b, n - 1, tls);
    }
  }

  // --- who gets whose original ---

  /** An original belongs to the feedback part it follows most closely. Pairing is
      faithful when each kept original sits with that one. */
  ghost predicate Faithful(parts: seq<Part>, n: nat)
    requires n <= |parts|
  {
    forall k :: 0 <= k < |Accepted(parts, n)| ==>
      k < |Feedbacks(parts, n)| && Closest(parts, Feedbacks(parts, n)[k], Accepted(parts, n)[k])
  }

  /** f is the last feedback part before o. */
  predicate Closest(parts: seq<Part>, f: nat, o: nat) {
    f < o <= |parts| && parts[f].Feedback? && forall i :: f < i < o ==> !parts[i].Feedback?
  }

  /** A feedback part is being passed over at position i: an original arrives there
      while two or more feedback parts are without one. */
  predicate PassedOver(parts: seq<Part>, i: nat)
    requires i < |parts|
  {
    parts[i].Original? && |Accepted(parts, i)| + 2 <= |Feedbacks(parts, i)|
  }

  lemma {:induction false} FeedbacksAscend(parts: seq<Part>, n: nat)
    requires n <= |parts|
    ensures forall j, k :: 0 <= j < k < |Feedbacks(parts, n)| ==> Feedbacks(parts, n)[j] < Feedbacks(parts, n)[k]
    ensures forall i :: 0 <= i < n && parts[i].Feedback? ==> i in Feedbacks(parts, n)
  {
    if n == 0 {
    } else {
      FeedbacksAscend(parts, n - 1);
    }
  }

  lemma LastIsClosest(parts: seq<Part>, n: nat, k: nat)
    requires n <= |parts| && k < |Feedbacks(parts, n)|
    ensures Closest(parts, Feedbacks(parts, n)[k], n) <==> k == |Feedbacks(parts, n)| - 1
  {
    var fs := Feedbacks(parts, n);
    FeedbacksAscend(parts, n);
    if k == |fs| - 1 {
      forall i | fs[k] < i < n ensures !parts[i].Feedback? {
        if parts[i].Feedback? {
          assert i in fs;
          var j :| 0 <= j < |fs| && fs[j] == i;
        }
      }
    } else {
      assert fs[k] < fs[|fs| - 1] < n && parts[fs[|fs| - 1]].Feedback?;
    }
  }

  lemma LastIsClosestAfter(parts: seq<Part>, n: nat)
    requires n <= |parts|
    ensures var m := |Accepted(parts, n)|;
      m < |Feedbacks(parts, n)| ==> (Closest(parts, Feedbacks(parts, n)[m], n) <==> m == |Feedbacks(parts, n)| - 1)
  {
    var m := |Accepted(parts, n)|;
    if m < |Feedbacks(parts, n)| { LastIsClosest(parts, n, m); }
  }

  lemma FaithfulStep(parts: seq<Part>, n: nat)
    requires n < |parts|
    ensures Faithful(parts, n + 1) <==> Faithful(parts, n) && !PassedOver(parts, n)
  {
    var os, fs, os', fs' := Accepted(parts, n), Feedbacks(parts, n), Accepted(parts, n + 1), Feedbacks(parts, n + 1);
    AcceptedFollows(parts, n);
    ListsNext(parts, n);
    LastIsClosestAfter(parts, n);
    hide Accepted, Feedbacks, Closest;
    forall k | 0 <= k < |os| ensures k < |fs| && os'[k] == os[k] && fs'[k] == fs[k] {}
    if parts[n].Original? && |os| < |fs| {
      assert os' == os + [n] && fs' == fs;
      assert PassedOver(parts, n) <==> |os| != |fs| - 1;
      assert Faithful(parts, n + 1) ==> Closest(parts, fs'[|os|], os'[|os|]);
    } else {
      assert os' == os;
    }
    if Faithful(parts, n + 1) {
      forall k | 0 <= k < |os| ensures Closest(parts, fs[k], os[k]) { assert Closest(parts, fs'[k], os'[k]); }
    }
  }

  /** Every report gets its own original exactly when no original arrives while
      two or more feedback parts are still without one. */
  lemma {:induction false} FaithfulIff(parts: seq<Part>, n: nat)
    requires n <= |parts|
    ensures Faithful(parts, n) <==> forall i :: 0 <= i < n ==> !PassedOver(parts, i)
  {
    if n != 0 {
      FaithfulIff(parts, n - 1);
      FaithfulStep(parts, n - 1);
    } else {
      assert Accepted(parts, 0) == [];
    }
  }

  /** It fails: a report sent without its original, followed by a report with one
      in the same mail, takes the other's original. */
  lemma PairingCanMisattribute(first: string, second: string, ofSecond: string)
    ensures var parts := [Feedback(first), Feedback(second), Original(ofSecond)];
      && Paired(parts, 3) == [ForensicParts(first, Some(ofSecond)), ForensicParts(second, None)]
      && !Faithful(parts, 3)
  {
    var parts := [Feedback(first), Feedback(second), Original(ofSecond)];
    ListsNext(parts, 0);
    ListsNext(parts, 1);
    ListsNext(parts, 2);
    hide Accepted, Feedbacks, Faithful;
    assert PassedOver(parts, 2);
    FaithfulIff(parts, 3);
  }

  lemma ListsNext(parts: seq<Part>, n: nat)
    requires n < |parts|
    ensures Accepted(parts, 0) == [] && Feedbacks(parts, 0) == []
    ensures Feedbacks(parts, n + 1) == Feedbacks(parts, n) + if parts[n].Feedback? then [n] else []
    ensures Accepted(parts, n + 1)
      == Accepted(parts, n) + if parts[n].Original? && |Accepted(parts, n)| < |Feedbacks(parts, n)| then [n] else []
  {
  }

  lemma AcceptedBelow(parts: seq<Part>, n: nat, i: nat)
    requires n <= |parts|
    ensures i in Accepted(parts, n) ==> i < n
  {
  }

  /** An original is lost exactly when every feedback part before it already has one. */
  lemma {:induction false} LostIff(parts: seq<Part>, n: nat, i: nat)
    requires i < n <= |parts| && parts[i].Original?
    ensures i !in Accepted(parts, n) <==> |Accepted(parts, i)| == |Feedbacks(parts, i)|
  {
    AcceptedFollows(parts, n - 1);
    AcceptedBelow(parts, n - 1, i);
    ListsNext(parts, n - 1);
    hide Accepted, Feedbacks;
    if i == n - 1 {
    } else {
      LostIff(parts, n - 1, i);
    }
  }
}
