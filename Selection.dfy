/** The checkbox toggle shared by the signer-role and form-creator pickers:
    a checked value is filtered out of the selection, an unchecked one is
    appended to it. */
module Selection {
  import opened Seqs

  /** The predicate `r => r !== x`. */
  function Other<T(==)>(x: T): T -> bool {
    y => y != x
  }

  /** `selected.includes(x) ? selected.filter(r => r !== x) : [...selected, x]`. */
  function Toggle<T(==)>(selected: seq<T>, x: T): (r: seq<T>)
  {
    if x in selected then Filter(selected, Other(x)) else selected + [x]
  }

  /** A value that is not selected is appended at the end. */
  lemma ToggleAbsent<T>(selected: seq<T>, x: T)
    requires x !in selected
    ensures Toggle(selected, x) == selected + [x]
  {
  }

  /** A value that is selected is removed, every occurrence of it, and the
      other values keep their order. */
  lemma TogglePresent<T>(selected: seq<T>, x: T)
    requires x in selected
    ensures x !in Toggle(selected, x)
    ensures Toggle(selected, x) == Filter(selected, Other(x))
  {
  }

  /** A toggle flips the membership of `x` and of nothing else. */
  lemma ToggleMembership<T>(selected: seq<T>, x: T, y: T)
    ensures x in Toggle(selected, x) <==> x !in selected
    ensures y != x ==> (y in Toggle(selected, x) <==> y in selected)
  {
    if x in selected {
      TogglePresent(selected, x);
      if y != x && y in selected {
        var i :| 0 <= i < |selected| && selected[i] == y;
        assert Other(x)(selected[i]);
      }
    }
  }

  /** The values other than `x` keep their relative order. */
  lemma ToggleKeepsOrder<T>(selected: seq<T>, x: T)
    ensures Filter(Toggle(selected, x), Other(x)) == Filter(selected, Other(x))
  {
    if x in selected {
      FilterIdempotent(selected, Other(x));
    } else {
      FilterConcat(selected, [x], Other(x));
      assert Filter([x], Other(x)) == [];
    }
  }

  /** Checking and then unchecking a value that was not selected restores
      the selection. */
  lemma ToggleTwice<T>(selected: seq<T>, x: T)
    requires x !in selected
    ensures Toggle(Toggle(selected, x), x) == selected
  {
    var once := selected + [x];
    assert x in once;
    FilterConcat(selected, [x], Other(x));
    assert Filter([x], Other(x)) == [];
    forall i | 0 <= i < |selected| ensures Other(x)(selected[i]) {
      assert selected[i] in selected;
    }
    FilterAll(selected, Other(x));
  }

  /** A toggle never introduces a duplicate. */
  lemma ToggleNoDuplicates<T>(selected: seq<T>, x: T)
    requires NoDuplicates(selected)
    ensures NoDuplicates(Toggle(selected, x))
  {
    if x in selected {
      FilterNoDuplicates(selected, Other(x));
    }
  }

  /** A toggle of an offered value keeps the selection within the offered values. */
  lemma ToggleWithin<T>(selected: seq<T>, x: T, offered: set<T>)
    requires forall i :: 0 <= i < |selected| ==> selected[i] in offered
    requires x in offered
    ensures forall i :: 0 <= i < |Toggle(selected, x)| ==> Toggle(selected, x)[i] in offered
  {
  }
}
