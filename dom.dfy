/** Plain-data stand-ins for the parts of the page's document that the scripts touch. */
module Dom {

  datatype Option<T> = None | Some(value: T)

  /** An element's class list, as the set of its class names. */
  type ClassList = set<string>

  /** The class that marks the current slide, dot, scene item or open menu. */
  const Active := "active"

  /** `classList.toggle(name)`: adds the class when it is absent and removes it when present. */
  function Toggle(c: ClassList, name: string): (r: ClassList)
    ensures name in r <==> name !in c
    ensures forall x :: x != name ==> (x in r <==> x in c)
  {
    if name in c then c - {name} else c + {name}
  }

  /**
   * The class lists of a collection after `active` is removed from every
   * element and then added to element `index`, if the collection has one there.
   */
  function ActiveOnly(s: seq<ClassList>, index: int): (r: seq<ClassList>)
    ensures |r| == |s|
    ensures forall k :: 0 <= k < |s| ==> (Active in r[k] <==> k == index)
    ensures forall k, x :: 0 <= k < |s| && x != Active ==> (x in r[k] <==> x in s[k])
  {
    seq(|s|, k requires 0 <= k < |s| => if k == index then s[k] + {Active} else s[k] - {Active})
  }

  /** The indices of the elements that carry `active`. */
  function ActiveIndices(s: seq<ClassList>): set<int>
  {
    set k | 0 <= k < |s| && Active in s[k]
  }

  /** Exactly one element is active when `index` is in range, none otherwise. */
  lemma ActiveOnlyCount(s: seq<ClassList>, index: int)
    ensures 0 <= index < |s| ==> ActiveIndices(ActiveOnly(s, index)) == {index}
    ensures !(0 <= index < |s|) ==> ActiveIndices(ActiveOnly(s, index)) == {}
    ensures |ActiveIndices(ActiveOnly(s, index))| == if 0 <= index < |s| then 1 else 0
  {
    var r := ActiveOnly(s, index);
    if 0 <= index < |s| {
      assert index in ActiveIndices(r);
      assert ActiveIndices(r) == {index};
    } else {
      assert ActiveIndices(r) == {};
    }
  }

  /** Showing one element and then another leaves only the second one active. */
  lemma {:induction false} ActiveOnlyLastWins(s: seq<ClassList>, i: int, j: int)
    ensures ActiveOnly(ActiveOnly(s, i), j) == ActiveOnly(s, j)
  {
    var a, b := ActiveOnly(ActiveOnly(s, i), j), ActiveOnly(s, j);
    forall k | 0 <= k < |s|
      ensures a[k] == b[k]
    {
      assert a[k] == ActiveOnly(s, i)[k] - {Active} + (if k == j then {Active} else {});
    }
  }

  /** `elements.forEach(e => e.classList.remove(name))`. */
  method RemoveFromAll(a: array<ClassList>, name: string)
    modifies a
    ensures forall k :: 0 <= k < a.Length ==> a[k] == old(a[k]) - {name}
  {
    for k := 0 to a.Length
      invariant forall j :: 0 <= j < k ==> a[j] == old(a[j]) - {name}
      invariant forall j :: k <= j < a.Length ==> a[j] == old(a[j])
    {
      a[k] := a[k] - {name};
    }
  }
}
