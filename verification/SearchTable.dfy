// The table of objects on the search path (backgraph.c:120-178): a stack in an array that
// is doubled when it is full.
module SearchTable {
  import opened Heights

  const INITIAL_IN_PROGRESS := 10000

  // The objects on the path, the latest outermost.
  datatype Path = Start | Step(before: Path, last: Obj)

  function Members(path: Path): set<Obj> {
    match path
    case Start => {}
    case Step(before, last) => Members(before) + {last}
  }

  // No object is in the table twice.
  predicate NoRepeats(path: Path) {
    match path
    case Start => true
    case Step(before, last) => last !in Members(before) && NoRepeats(before)
  }

  // The path that the entries of the table stand for.
  function PathOf(entries: seq<Obj>): Path {
    if entries == [] then Start
    else Step(PathOf(entries[..|entries| - 1]), entries[|entries| - 1])
  }

  lemma {:induction false} PathMembers(entries: seq<Obj>, p: Obj)
    ensures p in Members(PathOf(entries)) <==> p in entries
  {
    if entries != [] {
      PathMembers(entries[..|entries| - 1], p);
      assert entries == entries[..|entries| - 1] + [entries[|entries| - 1]];
    }
  }

  class PathTable {
    var space: array?<Obj>   // in_progress_space
    var n: nat               // n_in_progress
    ghost var path: Path
    ghost var Repr: set<object>

    ghost predicate Valid()
      reads this, Repr
      ensures Valid() ==> this in Repr
    {
      && this in Repr
      && (space != null ==> space in Repr && 0 < space.Length)
      && n <= (if space == null then 0 else space.Length)
      && path == PathOf(if space == null then [] else space[..n])
    }

    constructor ()
      ensures Valid() && fresh(Repr) && path == Start
    {
      space, n, path := null, 0, Start;
      Repr := {this};
    }

    // Makes room for one more entry.
    method Grow()
      requires Valid()
      modifies Repr
      ensures Valid() && fresh(Repr - old(Repr)) && path == old(path) && n == old(n)
      ensures space != null && n < space.Length
      ensures old(space) == null ==> space.Length == 10000
      ensures old(space) != null ==> space.Length == if old(n) == old(space.Length) then 2 * old(space.Length) else old(space.Length)
    {
      if space == null {
        space := new Obj[INITIAL_IN_PROGRESS];
        assert space[..n] == [];
        Repr := Repr + {space};
      } else if n == space.Length {
        ghost var entries := space[..n];
        var bigger := new Obj[2 * space.Length];
        forall i | 0 <= i < n {
          bigger[i] := space[i];
        }
        space := bigger;
        assert space[..n] == entries;
        Repr := Repr + {space};
      }
    }

    method Push(p: Obj)
      requires Valid()
      modifies Repr
      ensures Valid() && fresh(Repr - old(Repr)) && path == Step(old(path), p)
    {
      Grow();
      ghost var before := space[..n];
      space[n] := p;
      n := n + 1;
      path := Step(path, p);
      assert space[..n][..n - 1] == before;
    }

    method Contains(p: Obj) returns (found: bool)
      requires Valid()
      ensures found <==> p in Members(path)
    {
      PathMembers(if space == null then [] else space[..n], p);
      var i := 0;
      while i < n
        invariant i <= n && (forall j :: 0 <= j < i ==> space[j] != p)
      {
        if space[i] == p {
          return true;
        }
        i := i + 1;
      }
      return false;
    }

    // Takes off the last object, which the caller says is p.
    method Pop(ghost p: Obj)
      requires Valid() && path.Step? && path.last == p
      modifies this
      ensures Valid() && Repr == old(Repr) && path == old(path).before
    {
      assert space[..n][..n - 1] == space[..n - 1];
      n := n - 1;
      path := path.before;
    }
  }
}
