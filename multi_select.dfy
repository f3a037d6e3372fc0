/** The multi-select toggle (src/components/ui/multi-select.tsx): clicking an option adds it
    to the selection when absent and removes it when present. Lists are values: the
    selection passed in is never changed, and the new list is handed to `onChange`. */
module MultiSelect {

  /** `selected.filter(item => item !== value)`: every occurrence of `value` removed. */
  function Without<T(==,!new)>(selected: seq<T>, value: T): (r: seq<T>)
    ensures value !in r
    ensures forall x :: x != value ==> (x in r <==> x in selected)
    ensures |r| <= |selected|
    ensures value in selected ==> |r| < |selected|
  {
    if selected == [] then []
    else if selected[0] == value then Without(selected[1..], value)
    else [selected[0]] + Without(selected[1..], value)
  }

  /** `handleToggle(value)`: the list handed to `onChange`. */
  function Toggle(selected: seq<string>, value: string): (r: seq<string>)
    ensures value in r <==> value !in selected
    ensures forall x :: x != value ==> (x in r <==> x in selected)
    ensures value !in selected ==> r == selected + [value]
    ensures value in selected ==> r == Without(selected, value)
  {
    if value in selected then Without(selected, value) else selected + [value]
  }

  /** Removal keeps the others in their order: it distributes over concatenation. */
  lemma {:induction false} WithoutAppend<T(!new)>(a: seq<T>, b: seq<T>, value: T)
    ensures Without(a + b, value) == Without(a, value) + Without(b, value)
  {
    if a == [] {
      assert a + b == b;
    } else {
      var rest := Without(a[1..], value);
      WithoutAppend(a[1..], b, value);
      assert (a + b)[0] == a[0] && (a + b)[1..] == a[1..] + b;
      if a[0] != value {
        ConsAppend(a[0], rest, Without(b, value));
      }
    }
  }

  lemma ConsAppend<T>(x: T, s: seq<T>, t: seq<T>)
    ensures [x] + (s + t) == ([x] + s) + t
  {
  }

  /** Removal takes away exactly the occurrences of `value` and keeps every other element as
      many times as it occurred. */
  lemma {:induction false} WithoutCounts<T(!new)>(selected: seq<T>, value: T)
    ensures multiset(Without(selected, value)) == multiset(selected)[value := 0]
  {
    if selected != [] {
      WithoutCounts(selected[1..], value);
      assert selected == [selected[0]] + selected[1..];
    }
  }

  /** Removing a value that is not there changes nothing. */
  lemma {:induction false} WithoutAbsent<T(!new)>(selected: seq<T>, value: T)
    requires value !in selected
    ensures Without(selected, value) == selected
  {
    if selected != [] {
      WithoutAbsent(selected[1..], value);
      assert selected == [selected[0]] + selected[1..];
    }
  }

  /** Toggling an absent value twice gives back the original list. */
  lemma ToggleTwiceAbsent(selected: seq<string>, value: string)
    requires value !in selected
    ensures Toggle(Toggle(selected, value), value) == selected
  {
    WithoutAppend(selected, [value], value);
    WithoutAbsent(selected, value);
    assert Without([value], value) == [];
  }

  /** Toggling a present value twice moves it, once, to the end. */
  lemma ToggleTwicePresent(selected: seq<string>, value: string)
    requires value in selected
    ensures Toggle(Toggle(selected, value), value) == Without(selected, value) + [value]
  {
  }

  /** So toggling twice is not the identity in general. */
  lemma ToggleTwiceMoves()
    ensures Toggle(Toggle(["a", "b"], "a"), "a") == ["b", "a"]
  {
    assert Without(["a", "b"], "a") == ["b"] by {
      assert ["a", "b"][1..] == ["b"];
      assert ["b"][1..] == [];
    }
  }
}
