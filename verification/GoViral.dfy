/** Viral booting (go_viral): a tile that runs the code copies it to tiles further and further away
    and wakes them; they do the same. */
module GoViral {
  import opened Arithmetic

  /** parent wakes child, which starts with bsg_id == child and bsg_current_size == size. */
  datatype Boot = Boot(parent: nat, child: nat, size: nat)

  ghost predicate Boots(boots: seq<Boot>, j: nat) {
    exists i :: 0 <= i < |boots| && boots[i].child == j
  }

  /** No tile is woken twice. */
  ghost predicate NoneTwice(boots: seq<Boot>) {
    forall i, j :: 0 <= i < j < |boots| ==> boots[i].child != boots[j].child
  }

  /** Doubling the modulus splits a residue class in two. */
  lemma ModDouble(j: nat, c: nat, id: nat)
    requires id < c
    ensures j % c == id <==> j % (2 * c) == id || j % (2 * c) == id + c
    ensures 0 <= j % (2 * c) < 2 * c
  {
    DivMod(j, 2 * c);
    var q, r := j / (2 * c), j % (2 * c);
    assert q * (2 * c) == (2 * q) * c;
    if r < c {
      DivModIs(j, c, 2 * q, r);
    } else {
      DivModIs(j, c, 2 * q + 1, r - c);
    }
  }

  /** The tiles below n that tile id, started with the given size, is to wake with its offspring. */
  predicate InCharge(id: nat, size: nat, n: nat, j: nat)
    requires size > 0
  {
    size <= j < n && j % size == id
  }

  lemma Joins(boots: seq<Boot>, b: Boot, more: seq<Boot>, j: nat)
    ensures Boots(boots + [b] + more, j) <==> Boots(boots, j) || j == b.child || Boots(more, j)
  {
    var all := boots + [b] + more;
    if Boots(boots, j) {
      var i :| 0 <= i < |boots| && boots[i].child == j;
      assert all[i].child == j;
    }
    if j == b.child {
      assert all[|boots|].child == j;
    }
    if Boots(more, j) {
      var i :| 0 <= i < |more| && more[i].child == j;
      assert all[|boots| + 1 + i].child == j;
    }
  }

  lemma JoinsOnce(boots: seq<Boot>, b: Boot, more: seq<Boot>)
    requires NoneTwice(boots) && NoneTwice(more) && !Boots(boots, b.child) && !Boots(more, b.child)
    requires forall j: nat :: !(Boots(boots, j) && Boots(more, j))
    ensures NoneTwice(boots + [b] + more)
  {
    var all := boots + [b] + more;
    forall i, j | 0 <= i < j < |all| ensures all[i].child != all[j].child {
      if i < |boots| {
        assert all[i] == boots[i] && Boots(boots, boots[i].child);
        if j > |boots| {
          assert all[j] == more[j - |boots| - 1] && Boots(more, all[j].child);
        }
      } else if i == |boots| {
        assert all[j] == more[j - |boots| - 1] && Boots(more, all[j].child);
      }
    }
  }

  /** The last round of the loop leaves no tile out. */
  lemma NoneLeft(id: nat, size: nat, current: nat, n: nat, j: nat)
    requires id < size <= current && id + current >= n && InCharge(id, size, n, j)
    ensures j % current != id
  {
    DivMod(j, current);
    if j % current == id {
      MulBound(j / current, current);
    }
  }

  /** One round: what the new offspring wakes, and the target itself, are the tiles of one of the
      two halves of what was left. */
  lemma Round(id: nat, size: nat, current: nat, n: nat, j: nat)
    requires id < size <= current && id + current < n && current % size == 0
    ensures InCharge(id + current, 2 * current, n, j) || j == id + current ==>
      InCharge(id, size, n, j) && j % current == id && j % (2 * current) != id
    ensures InCharge(id, size, n, j) && j % current == id && j % (2 * current) != id ==>
      InCharge(id + current, 2 * current, n, j) || j == id + current
    ensures !InCharge(id + current, 2 * current, n, id + current)
    ensures InCharge(id, size, n, j) && j % (2 * current) == id ==> j % current == id
  {
    ModDouble(j, current, id);
    DivModIs(id + current, 2 * current, 0, id + current);
    ResidueKept(j, current, size, id);
    if j < 2 * current {
      DivModIs(j, 2 * current, 0, j);
    }
  }

  lemma ResidueKept(j: nat, current: nat, size: nat, id: nat)
    requires id < size && current > 0 && current % size == 0
    ensures j % current == id ==> j % size == id
  {
    if j % current == id {
      DivMod(j, current);
      DivMod(current, size);
      assert j == (j / current * (current / size)) * size + id;
      DivModIs(j, size, j / current * (current / size), id);
    }
  }

  /** Everything that tile id and the tiles it wakes do. */
  method Spread(id: nat, size: nat, n: nat) returns (boots: seq<Boot>)
    requires id < size
    ensures NoneTwice(boots)
    ensures forall j: nat :: Boots(boots, j) <==> InCharge(id, size, n, j)
    ensures forall i :: 0 <= i < |boots| ==> boots[i].child < boots[i].size && boots[i].parent < boots[i].child
    decreases n - size
  {
    boots := [];
    var current := size;
    DivModIs(size, size, 1, 0);
    while true
      invariant size <= current && current % size == 0
      invariant NoneTwice(boots)
      invariant forall j: nat :: Boots(boots, j) <==> InCharge(id, size, n, j) && j % current != id
      invariant forall i :: 0 <= i < |boots| ==> boots[i].child < boots[i].size && boots[i].parent < boots[i].child
      decreases n - current
    {
      var target := current + id;
      if target >= n {
        break;
      }
      ghost var before := current;
      current := current * 2;
      var boot := Boot(id, target, current);
      var offspring := Spread(target, current, n);
      forall j: nat
        ensures Boots(boots + [boot] + offspring, j) <==> InCharge(id, size, n, j) && j % current != id
        ensures !(Boots(boots, j) && Boots(offspring, j))
      {
        Round(id, size, before, n, j);
        Joins(boots, boot, offspring, j);
      }
      Round(id, size, before, n, target);
      JoinsOnce(boots, boot, offspring);
      boots := boots + [boot] + offspring;
      DivMod(before, size);
      DivModIs(current, size, 2 * (before / size), 0);
    }
    forall j: nat ensures Boots(boots, j) <==> InCharge(id, size, n, j) {
      if InCharge(id, size, n, j) {
        NoneLeft(id, size, current, n, j);
      }
    }
  }

  /** From tile 0, every other tile below n is woken exactly once. */
  method SpreadAll(n: nat) returns (boots: seq<Boot>)
    ensures NoneTwice(boots)
    ensures forall j: nat :: Boots(boots, j) <==> 1 <= j < n
  {
    boots := Spread(0, 1, n);
    forall j: nat ensures Boots(boots, j) <==> 1 <= j < n {
      DivModIs(j, 1, j, 0);
    }
  }
}
