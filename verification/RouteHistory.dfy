/** When registration follows the current claims: the table it asks is that of the last
    opening that passed its check, read here from the history of the declarations. */
module RouteHistory {
  import opened Basics
  import opened RouteOwnership

  // ----- The history

  /** The root claims that the declarations amount to. */
  function RootClaims(es: seq<Event>): seq<Claim<string>>
    decreases |es|
  {
    if es == [] then []
    else
      var before, last := RootClaims(es[..|es| - 1]), es[|es| - 1];
      if last.SetRoot? then Slot(before, last.face, last.path) else before
  }

  function Owners(es: seq<Event>): map<string, Face> { Rebuild(RootClaims(es), NO_ROOT) }

  /** Event `k` is an opening whose check passed. */
  predicate Passed(es: seq<Event>, k: nat) {
    k < |es| && es[k].Open? && Consistent(Run(Start(), es[..k]))
  }

  function LastPassed(es: seq<Event>): Option<nat>
    decreases |es|
  {
    if es == [] then None
    else if Passed(es, |es| - 1) then Some(|es| - 1)
    else LastPassed(es[..|es| - 1])
  }

  lemma {:induction false} LastPassedMeaning(es: seq<Event>)
    ensures LastPassed(es).None? ==> forall k :: !Passed(es, k)
    ensures LastPassed(es).Some? ==> Passed(es, LastPassed(es).value)
    ensures LastPassed(es).Some? ==> forall j :: LastPassed(es).value < j ==> !Passed(es, j)
    decreases |es|
  {
    if es != [] && !Passed(es, |es| - 1) {
      var front := es[..|es| - 1];
      LastPassedMeaning(front);
      forall k: nat | k < |es| ensures Passed(es, k) <==> Passed(front, k) {
        if k < |front| {
          assert es[..k] == front[..k] && es[k] == front[k];
        }
      }
    }
  }

  /** The table that registration asks. */
  function Asked(es: seq<Event>): map<string, Face> {
    LastPassedMeaning(es);
    match LastPassed(es)
    case None => Owners(es)
    case Some(k) => Owners(es[..k])
  }

  lemma {:induction false} RunSnoc(s: State, es: seq<Event>, e: Event)
    ensures Run(s, es + [e]) == Step(Run(s, es), e)
    decreases |es|
  {
    if es == [] {
      assert es + [e] == [e];
    } else {
      assert (es + [e])[1..] == es[1..] + [e];
      RunSnoc(Step(s, es[0]), es[1..], e);
    }
  }

  predicate Told(s: State, es: seq<Event>) {
    && s.roots == RootClaims(es) && s.owners == Owners(es)
    && (s.snap.Some? <==> LastPassed(es).Some?)
    && (s.snap.Some? ==> s.snap.value.roots == Asked(es))
  }

  lemma ToldOwners(s: State, es: seq<Event>, last: Event)
    requires s.roots == RootClaims(es) && s.owners == Owners(es) && !s.running
    ensures var t := Step(s, last); t.roots == RootClaims(es + [last]) && t.owners == Owners(es + [last])
  {
    assert (es + [last])[..|es|] == es;
  }

  lemma ToldAsked(s: State, es: seq<Event>, last: Event)
    requires Told(s, es) && !s.running && Run(Start(), es) == s && !Step(s, last).running
    ensures var t, more := Step(s, last), es + [last];
            (t.snap.Some? <==> LastPassed(more).Some?) && (t.snap.Some? ==> t.snap.value.roots == Asked(more))
  {
    var more := es + [last];
    assert more[..|es|] == es;
    LastPassedMeaning(es);
    if LastPassed(es).Some? {
      assert more[..LastPassed(es).value] == es[..LastPassed(es).value];
    }
  }

  /** Until it is open, the state is what the history says. */
  lemma {:induction false} HistoryTells(es: seq<Event>)
    requires !Run(Start(), es).running
    ensures Told(Run(Start(), es), es)
    decreases |es|
  {
    if es != [] {
      var front, last := es[..|es| - 1], es[|es| - 1];
      assert es == front + [last];
      RunSnoc(Start(), front, last);
      HistoryTells(front);
      ToldOwners(Run(Start(), front), front, last);
      ToldAsked(Run(Start(), front), front, last);
    }
  }

  // ----- Tables told apart by what they own

  predicate Injective(m: map<string, Face>) {
    "" !in m && forall p, q :: p in m && q in m && m[p] == m[q] ==> p == q
  }

  lemma {:induction false} ClaimantClaims(claims: seq<Claim<string>>, p: string) returns (i: nat)
    requires FirstClaimant(claims, p).Some?
    ensures i < |claims| && claims[i] == Claim(FirstClaimant(claims, p).value, p)
    decreases |claims|
  {
    i := 0;
    if claims[0].value != p {
      var j := ClaimantClaims(claims[1..], p);
      i := j + 1;
    }
  }

  lemma TableInjective(claims: seq<Claim<string>>)
    requires OneEach(claims)
    ensures Injective(Rebuild(claims, NO_ROOT))
  {
    var m := Rebuild(claims, NO_ROOT);
    RebuildIsFirst(claims, NO_ROOT, "");
    forall p, q | p in m && q in m && m[p] == m[q] ensures p == q {
      RebuildIsFirst(claims, NO_ROOT, p);
      RebuildIsFirst(claims, NO_ROOT, q);
      var i := ClaimantClaims(claims, p);
      var j := ClaimantClaims(claims, q);
    }
  }

  lemma {:induction false} OwnersOneEach(es: seq<Event>)
    ensures OneEach(RootClaims(es))
    decreases |es|
  {
    if es != [] {
      var front, last := es[..|es| - 1], es[|es| - 1];
      OwnersOneEach(front);
      if last.SetRoot? {
        SlotOneEach(RootClaims(front), last.face, last.path);
      }
    }
  }

  lemma OwnRoot(m: map<string, Face>, r: string)
    requires r in m && r != ""
    ensures LookupOwner(m, r) == Some(m[r])
  {
    assert r[..|r|] == r;
    if r == "/" {
      assert LookupOwner(m, r) == Owner(m, r, 0);
    }
  }

  lemma {:induction false} OwnedFrom(m: map<string, Face>, path: string, n: nat) returns (r: string)
    requires n <= |path| && Owner(m, path, n).Some?
    ensures r in m && UnderRoot(path, r) && m[r] == Owner(m, path, n).value
    decreases n
  {
    if n == 0 {
      r := "/";
    } else if path[..n] != "/" && path[..n] in m && UnderRoot(path, path[..n]) {
      r := path[..n];
    } else {
      r := OwnedFrom(m, path, n - 1);
    }
  }

  lemma UnderEachOther(p: string, q: string)
    requires p != "" && q != "" && UnderRoot(p, q) && UnderRoot(q, p)
    ensures p == q
  {
  }

  ghost predicate SameOwners(m: map<string, Face>, n: map<string, Face>) {
    forall path :: path != "" ==> LookupOwner(m, path) == LookupOwner(n, path)
  }

  lemma SameOwnersIn(m: map<string, Face>, n: map<string, Face>, r: string)
    requires Injective(m) && Injective(n) && SameOwners(m, n) && r in m
    ensures r in n && n[r] == m[r]
  {
    OwnRoot(m, r);
    var q := OwnedFrom(n, r, |r|);
    OwnRoot(n, q);
    var p := OwnedFrom(m, q, |q|);
    assert p == r;
    UnderEachOther(r, q);
  }

  /** Tables in which every face has one root at most are told apart by a path. */
  lemma SameOwnersSame(m: map<string, Face>, n: map<string, Face>)
    requires Injective(m) && Injective(n)
    ensures SameOwners(m, n) <==> m == n
  {
    if SameOwners(m, n) {
      forall r | r in m ensures r in n && n[r] == m[r] {
        SameOwnersIn(m, n, r);
      }
      forall r | r in n ensures r in m {
        SameOwnersIn(n, m, r);
      }
    }
  }

  // ----- Main results

  predicate Accepts(s: State, face: Face, path: string) {
    |Step(s, Register(face, path)).log| > |s.log|
  }

  predicate Owns(owners: map<string, Face>, face: Face, path: string) {
    path != "" && LookupOwner(owners, path) == Some(face)
  }

  /** After these events a path is registered by exactly the face that owns it now. */
  ghost predicate FollowsAt(es: seq<Event>, path: string) {
    forall face :: Accepts(Run(Start(), es), face, path) <==> Owns(Owners(es), face, path)
  }

  ghost predicate Follows(es: seq<Event>) { forall path :: FollowsAt(es, path) }

  lemma AcceptsIsAsked(es: seq<Event>, face: Face, path: string)
    requires !Run(Start(), es).running
    ensures Accepts(Run(Start(), es), face, path) <==> Owns(Asked(es), face, path)
  {
    HistoryTells(es);
  }

  /** One path: its registration follows the claims exactly when its owner is still the
      one it had at the last opening that passed. */
  lemma PathFollows(es: seq<Event>, path: string)
    requires !Run(Start(), es).running && path != ""
    ensures FollowsAt(es, path) <==> LookupOwner(Asked(es), path) == LookupOwner(Owners(es), path)
  {
    var was, now := LookupOwner(Asked(es), path), LookupOwner(Owners(es), path);
    forall face ensures Accepts(Run(Start(), es), face, path) <==> Owns(Asked(es), face, path) {
      AcceptsIsAsked(es, face, path);
    }
    if FollowsAt(es, path) {
      if was.Some? {
        assert Owns(Asked(es), was.value, path);
      }
      if now.Some? {
        assert Owns(Owners(es), now.value, path);
      }
    }
  }

  /** Every path: registration follows the claims exactly when no opening has passed yet or
      the table is now as it was at the last that passed. */
  lemma RegistrationFollows(es: seq<Event>)
    requires !Run(Start(), es).running
    ensures Follows(es) <==> LastPassed(es).None? || Asked(es) == Owners(es)
  {
    var was, now := Asked(es), Owners(es);
    OwnersOneEach(es);
    TableInjective(RootClaims(es));
    if LastPassed(es).Some? {
      LastPassedMeaning(es);
      OwnersOneEach(es[..LastPassed(es).value]);
      TableInjective(RootClaims(es[..LastPassed(es).value]));
    }
    SameOwnersSame(was, now);
    forall path ensures path != "" ==> (FollowsAt(es, path) <==> LookupOwner(was, path) == LookupOwner(now, path)) {
      if path != "" {
        PathFollows(es, path);
      }
    }
    assert FollowsAt(es, "");
  }

  lemma {:induction false} StoppedBefore(es: seq<Event>, j: nat)
    requires j <= |es| && !Run(Start(), es).running
    ensures !Run(Start(), es[..j]).running
    decreases |es|
  {
    if j < |es| {
      var front := es[..|es| - 1];
      assert es == front + [es[|es| - 1]] && front[..j] == es[..j];
      RunSnoc(Start(), front, es[|es| - 1]);
      StoppedBefore(front, j);
    } else {
      assert es[..j] == es;
    }
  }

  lemma {:induction false} LastPassedSince(es: seq<Event>, k: nat, j: nat)
    requires LastPassed(es) == Some(k) && k < j <= |es|
    ensures LastPassed(es[..j]) == Some(k)
    decreases |es|
  {
    if j == |es| {
      assert es[..j] == es;
    } else {
      var front := es[..|es| - 1];
      assert front[..j] == es[..j];
      LastPassedSince(front, k, j);
    }
  }

  lemma AskedSince(es: seq<Event>, k: nat, j: nat)
    requires LastPassed(es) == Some(k) && k < j <= |es|
    ensures Asked(es[..j]) == Owners(es[..k])
  {
    LastPassedSince(es, k, j);
    assert es[..j][..k] == es[..k];
  }

  /** No declaration since event `k` changed the table. */
  predicate Undisturbed(es: seq<Event>, k: nat) {
    forall j :: k < j < |es| && es[j].SetRoot? ==> Owners(es[..j + 1]) == Owners(es[..j])
  }

  lemma {:induction false} UndisturbedSame(es: seq<Event>, k: nat, j: nat)
    requires Passed(es, k) && Undisturbed(es, k) && k <= j <= |es|
    ensures Owners(es[..j]) == Owners(es[..k])
    decreases j
  {
    if j > k {
      UndisturbedSame(es, k, j - 1);
      assert es[..j][..j - 1] == es[..j - 1];
    }
  }

  /** Ever since the last opening that passed, registration has followed the claims exactly
      when no declaration since has changed the table. */
  lemma FollowsSinceOpening(es: seq<Event>, k: nat)
    requires !Run(Start(), es).running && LastPassed(es) == Some(k)
    ensures (forall j :: k < j <= |es| ==> Follows(es[..j])) <==> Undisturbed(es, k)
  {
    LastPassedMeaning(es);
    forall j | k < j <= |es| ensures Follows(es[..j]) <==> Owners(es[..k]) == Owners(es[..j]) {
      StoppedBefore(es, j);
      AskedSince(es, k, j);
      RegistrationFollows(es[..j]);
    }
    if Undisturbed(es, k) {
      forall j | k < j <= |es| ensures Follows(es[..j]) {
        UndisturbedSame(es, k, j);
      }
    }
    if forall j :: k < j <= |es| ==> Follows(es[..j]) {
      forall j | k < j < |es| && es[j].SetRoot? ensures Owners(es[..j + 1]) == Owners(es[..j]) {
        assert Follows(es[..j]) && Follows(es[..j + 1]);
      }
    }
  }
}
