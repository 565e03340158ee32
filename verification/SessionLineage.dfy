/** Rotation chains: the ancestors of a token in the issue history. */
module SessionLineage {
  import opened Prelude
  import opened Sessions
  import opened SessionProtocol
  import opened SessionInvariant

  /** Every parent was issued before its child. */
  ghost predicate Founded(issued: History) {
    forall h, p :: IsChild(issued, h, p) ==> p in issued && issued[p].born < issued[h].born
  }

  /** A token together with all the tokens it descends from by rotation. */
  ghost function Lineage(issued: History, h: Hash): set<Hash>
    requires Founded(issued) && h in issued
    decreases issued[h].born
  {
    match issued[h].parent
    case None => {h}
    case Some(p) => assert IsChild(issued, h, p); Lineage(issued, p) + {h}
  }

  /** The login token a rotation chain starts from. */
  ghost function Root(issued: History, h: Hash): (r: Hash)
    requires Founded(issued) && h in issued
    ensures r in issued && issued[r].parent == None && r in Lineage(issued, h)
    decreases issued[h].born
  {
    match issued[h].parent
    case None => h
    case Some(p) => assert IsChild(issued, h, p); Root(issued, p)
  }

  /** Lineages lie in the history and do not change as it grows. */
  lemma {:induction false} LineageStable(issued: History, issued': History, h: Hash)
    requires Founded(issued) && Founded(issued') && h in issued
    requires forall k :: k in issued ==> k in issued' && issued'[k] == issued[k]
    ensures Lineage(issued', h) == Lineage(issued, h) <= issued.Keys
    ensures Root(issued', h) == Root(issued, h)
    decreases issued[h].born
  {
    if issued[h].parent.Some? {
      assert IsChild(issued, h, issued[h].parent.value);
      LineageStable(issued, issued', issued[h].parent.value);
    }
  }

  /** A chain never changes owner. */
  lemma {:induction false} OneOwner(s: State, h: Hash, a: Hash)
    requires Inv(s) && Founded(s.issued) && h in s.issued && a in Lineage(s.issued, h)
    ensures a in s.issued && s.issued[a].sess.user == s.issued[h].sess.user
    decreases s.issued[h].born
  {
    if a != h {
      assert IsChild(s.issued, h, s.issued[h].parent.value);
      OneOwner(s, s.issued[h].parent.value, a);
    }
  }

  /** A proper ancestor has been rotated away, and its child is on the way. */
  lemma {:induction false} AncestorSpent(s: State, h: Hash, a: Hash) returns (child: Hash)
    requires Inv(s) && Founded(s.issued) && h in s.issued && a in Lineage(s.issued, h) && a != h
    ensures child in Lineage(s.issued, h) && IsChild(s.issued, child, a) && a !in s.store
    decreases s.issued[h].born
  {
    var p := s.issued[h].parent.value;
    assert IsChild(s.issued, h, p);
    if a == p { child := h; } else { child := AncestorSpent(s, p, a); }
  }

  /** Two chains from one login are prefixes of one another: rotation never branches. */
  lemma {:induction false} NoBranching(s: State, h: Hash, k: Hash)
    requires Inv(s) && Founded(s.issued) && h in s.issued && k in s.issued
    requires Root(s.issued, h) == Root(s.issued, k)
    ensures h in Lineage(s.issued, k) || k in Lineage(s.issued, h)
    decreases s.issued[h].born
  {
    if s.issued[h].parent.Some? {
      var p := s.issued[h].parent.value;
      assert IsChild(s.issued, h, p);
      NoBranching(s, p, k);
      if k !in Lineage(s.issued, p) {
        var child := AncestorSpent(s, k, p);
        assert child == h;
      }
    }
  }
}
