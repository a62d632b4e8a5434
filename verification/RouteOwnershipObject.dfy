/** The ownership tables as the program keeps them: lists and maps that declarations
    change, and loops over them. */
module RouteOwnershipObject {
  import opened Basics
  import opened RouteOwnership

  /** The claim of a face is overwritten where it is, or appended. */
  method PutClaim<T>(claims: seq<Claim<T>>, face: Face, value: T) returns (r: seq<Claim<T>>)
    ensures r == Slot(claims, face, value)
  {
    for i := 0 to |claims|
      invariant Slot(claims, face, value) == claims[..i] + Slot(claims[i..], face, value)
    {
      if claims[i].face == face {
        assert claims[i..][1..] == claims[i + 1..];
        return claims[..i] + [Claim(face, value)] + claims[i + 1..];
      }
      assert claims[i..][1..] == claims[i + 1..];
      assert claims[..i] + ([claims[i]] + Slot(claims[i + 1..], face, value))
          == claims[..i + 1] + Slot(claims[i + 1..], face, value);
    }
    assert claims[..|claims|] == claims;
    return claims + [Claim(face, value)];
  }

  /** The table is made anew from the claims, in their order. */
  method MakeTable<T(==)>(claims: seq<Claim<T>>, none: Option<T>) returns (table: map<T, Face>)
    ensures table == Rebuild(claims, none)
  {
    table := map[];
    for i := 0 to |claims|
      invariant table == Rebuild(claims[..i], none)
    {
      assert claims[..i + 1][..i] == claims[..i];
      if Some(claims[i].value) != none && claims[i].value !in table {
        table := table[claims[i].value := claims[i].face];
      }
    }
    assert claims[..|claims|] == claims;
  }

  /** The scan for the longest covering root; `order` is how the map gives its keys. */
  method LookupInTable(roots: map<string, Face>, order: seq<string>, path: string) returns (best: Option<Face>)
    requires forall r :: r in order <==> r in roots
    ensures best == LookupOwner(roots, path)
  {
    ScanIsLongest(order, roots, path);
    best := None;
    var bestLen := 0;
    assert order[0..] == order;
    for i := 0 to |order|
      invariant bestLen >= 0
      invariant forall r :: r in order[i..] ==> r in roots
      invariant Scan(order[i..], roots, path, best, bestLen) == Scan(order, roots, path, None, 0)
    {
      assert order[i..][1..] == order[i + 1..];
      var r := order[i];
      if r == "/" {
        if best.None? {
          best := Some(roots[r]);
        }
      } else if UnderRoot(path, r) && |r| > bestLen {
        best, bestLen := Some(roots[r]), |r|;
      }
    }
  }

  /** Whether two claims clash. */
  method Clashes<T(==)>(claims: seq<Claim<T>>, none: Option<T>) returns (bad: bool)
    ensures bad <==> !Unique(claims, none)
  {
    for i := 0 to |claims|
      invariant Unique(claims[..i], none)
    {
      for j := 0 to i
        invariant forall k :: 0 <= k < j && claims[k].value == claims[i].value ==> Some(claims[i].value) == none
      {
        if claims[j].value == claims[i].value && Some(claims[i].value) != none {
          return true;
        }
      }
    }
    assert claims[..|claims|] == claims;
    return false;
  }

  class Registry {
    var rootClaims: seq<Claim<string>>
    var portClaims: seq<Claim<nat>>
    var rootOwners: map<string, Face>
    var portFace: map<nat, Face>
    var routeLog: seq<Claim<string>>
    var ownerSnap: Option<Snapshot>
    var isOpen: bool

    ghost function View(): State
      reads this
    {
      State(rootClaims, portClaims, rootOwners, portFace, routeLog, ownerSnap, isOpen)
    }

    ghost predicate Valid()
      reads this
    {
      Inv(View())
    }

    constructor ()
      ensures Valid() && View() == Start()
    {
      rootClaims, portClaims, rootOwners, portFace, routeLog, ownerSnap, isOpen := [], [], map[], map[], [], None, false;
    }

    method SetRootPath(face: Face, path: string)
      requires Valid()
      modifies this
      ensures Valid() && View() == Step(old(View()), SetRoot(face, path))
    {
      StepInv(View(), SetRoot(face, path));
      if isOpen {
        return;
      }
      rootClaims := PutClaim(rootClaims, face, path);
      rootOwners := MakeTable(rootClaims, NO_ROOT);
    }

    method AddListener(face: Face, port: nat)
      requires Valid()
      modifies this
      ensures Valid() && View() == Step(old(View()), Listen(face, port))
    {
      StepInv(View(), Listen(face, port));
      if isOpen {
        return;
      }
      portClaims := PutClaim(portClaims, face, port);
      portFace := MakeTable(portClaims, None);
    }

    /** `order` is how the map that is asked gives its keys. */
    method CheckRouteOwnership(face: Face, path: string, order: seq<string>) returns (ok: bool)
      requires Valid()
      requires forall r :: r in order <==> r in (if ownerSnap.Some? then ownerSnap.value.roots else rootOwners)
      modifies this
      ensures Valid() && View() == Step(old(View()), Register(face, path))
      ensures ok <==> !old(isOpen) && path != "" && OwnerNow(old(View()), path) == Some(face)
    {
      StepInv(View(), Register(face, path));
      if isOpen || path == "" {
        return false;
      }
      var owner := LookupInTable(if ownerSnap.Some? then ownerSnap.value.roots else rootOwners, order, path);
      if owner == Some(face) {
        routeLog := routeLog + [Claim(face, path)];
        return true;
      }
      return false;
    }

    /** The check at opening; a snapshot is fixed when it passes. */
    method ValidateRouteOwnership(order: seq<string>) returns (ok: bool)
      requires Valid() && !isOpen && forall r :: r in order <==> r in rootOwners
      modifies this
      ensures Valid() && ok == Consistent(old(View()))
      ensures View() == Step(old(View()), Open(false, false))
    {
      StepInv(View(), Open(false, false));
      var rootsClash := Clashes(rootClaims, NO_ROOT);
      var portsClash := Clashes(portClaims, None);
      var drifted := false;
      for i := 0 to |routeLog|
        invariant View() == old(View())
        invariant drifted <==> exists k :: 0 <= k < i && LookupOwner(rootOwners, routeLog[k].value) != Some(routeLog[k].face)
      {
        var now := LookupInTable(rootOwners, order, routeLog[i].value);
        if now != Some(routeLog[i].face) {
          drifted := true;
        }
      }
      ok := !rootsClash && !portsClash && !drifted;
      if ok {
        ownerSnap := Some(Snapshot(rootOwners, portFace));
      }
    }
  }
}
