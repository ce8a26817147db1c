/** What a system declares to access (`QueryProperties` in src/query.rs). */
module Accesses {
  import opened TypeIds

  datatype Access = Access(exclusive: bool, compMut: set<TypeId>, compConst: set<TypeId>,
                           resMut: set<TypeId>, resConst: set<TypeId>) {

    predicate IsDisjoint(other: Access) {
      && !exclusive && !other.exclusive
      && compMut !! other.compConst
      && resMut !! other.resConst
      && compMut !! other.compMut
      && resMut !! other.resMut
      && compConst !! other.compMut
      && resConst !! other.resMut
    }

    /** The cells that the access names. */
    ghost function Writes(): set<Cell> {
      (set t | t in compMut :: Component(t)) + (set t | t in resMut :: Resource(t))
    }

    ghost function Reads(): set<Cell> {
      (set t | t in compConst :: Component(t)) + (set t | t in resConst :: Resource(t))
    }
  }

  /** A place in the world as the scheduler sees it: all components of a type, or one resource. */
  datatype Cell = Component(t: TypeId) | Resource(t: TypeId)

  /** An access names the components and the resources of its lists, and no others. */
  lemma CellsMean(a: Access, t: TypeId)
    ensures Component(t) in a.Writes() <==> t in a.compMut
    ensures Resource(t) in a.Writes() <==> t in a.resMut
    ensures Component(t) in a.Reads() <==> t in a.compConst
    ensures Resource(t) in a.Reads() <==> t in a.resConst
  {
  }

  /** On the lists: no component and no resource that one of the two may change is on a list of the other. */
  lemma DisjointLists(a: Access, b: Access)
    ensures a.IsDisjoint(b) <==>
            && !a.exclusive && !b.exclusive
            && (forall t :: t in a.compMut ==> t !in b.compMut && t !in b.compConst)
            && (forall t :: t in b.compMut ==> t !in a.compMut && t !in a.compConst)
            && (forall t :: t in a.resMut ==> t !in b.resMut && t !in b.resConst)
            && (forall t :: t in b.resMut ==> t !in a.resMut && t !in a.resConst)
  {
  }

  /** Two accesses are disjoint exactly when neither is exclusive and neither writes what the other touches. */
  lemma DisjointMeans(a: Access, b: Access)
    ensures a.IsDisjoint(b) <==>
            && !a.exclusive && !b.exclusive
            && a.Writes() !! b.Writes() + b.Reads()
            && b.Writes() !! a.Writes() + a.Reads()
    ensures a.IsDisjoint(b) <==> b.IsDisjoint(a)
  {
    if a.Writes() !! b.Writes() + b.Reads() && b.Writes() !! a.Writes() + a.Reads() {
      forall t
        ensures !(t in a.compMut && t in b.compConst) && !(t in a.compMut && t in b.compMut)
        ensures !(t in a.compConst && t in b.compMut)
      {
        assert Component(t) in a.Writes() <==> t in a.compMut;
        assert Component(t) in b.Writes() <==> t in b.compMut;
        assert Component(t) in a.Reads() <==> t in a.compConst;
        assert Component(t) in b.Reads() <==> t in b.compConst;
      }
      forall t
        ensures !(t in a.resMut && t in b.resConst) && !(t in a.resMut && t in b.resMut)
        ensures !(t in a.resConst && t in b.resMut)
      {
        assert Resource(t) in a.Writes() <==> t in a.resMut;
        assert Resource(t) in b.Writes() <==> t in b.resMut;
        assert Resource(t) in a.Reads() <==> t in a.resConst;
        assert Resource(t) in b.Reads() <==> t in b.resConst;
      }
    }
  }
}
