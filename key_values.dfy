/** An ordered list of name/value pairs with the list operations that the
    browser's URLSearchParams (section 6.2 of the WHATWG URL Standard) and
    FormData (the FormData interface of the WHATWG XMLHttpRequest Standard)
    objects share: `get` answers the first value of a name, `getAll` every
    value in order, `append` adds a pair at the end, `delete` removes every
    pair of a name and `set` overwrites the first pair of a name, removes
    the others, or appends when there is none. */
module KeyValues {
  import opened Common

  type Entry = (string, string)

  function Get(ps: seq<Entry>, name: string): Option<string>
  {
    if ps == [] then None
    else if ps[0].0 == name then Some(ps[0].1)
    else Get(ps[1..], name)
  }

  function GetAll(ps: seq<Entry>, name: string): seq<string>
  {
    if ps == [] then []
    else (if ps[0].0 == name then [ps[0].1] else []) + GetAll(ps[1..], name)
  }

  /** The pairs whose name is not in `names`, in their original order. */
  function Without(ps: seq<Entry>, names: set<string>): seq<Entry>
  {
    if ps == [] then []
    else (if ps[0].0 in names then [] else [ps[0]]) + Without(ps[1..], names)
  }

  function Delete(ps: seq<Entry>, name: string): seq<Entry>
  {
    Without(ps, {name})
  }

  /** The first pair named `name` gets `value`; later pairs of that name go. */
  function ReplaceFirst(ps: seq<Entry>, name: string, value: string): seq<Entry>
  {
    if ps == [] then []
    else if ps[0].0 == name then [(name, value)] + Delete(ps[1..], name)
    else [ps[0]] + ReplaceFirst(ps[1..], name, value)
  }

  function Set(ps: seq<Entry>, name: string, value: string): seq<Entry>
  {
    if Get(ps, name).None? then ps + [(name, value)] else ReplaceFirst(ps, name, value)
  }

  /** `get` is the head of `getAll`. */
  lemma {:induction false} GetIsFirstOfAll(ps: seq<Entry>, name: string)
    ensures Get(ps, name) == if GetAll(ps, name) == [] then None else Some(GetAll(ps, name)[0])
  {
    if ps != [] && ps[0].0 != name {
      GetIsFirstOfAll(ps[1..], name);
    }
  }

  /** `get` answers the value of the first pair with the name. */
  lemma {:induction false} GetAt(ps: seq<Entry>, name: string, j: int)
    requires 0 <= j < |ps| && ps[j].0 == name
    requires forall i :: 0 <= i < j ==> ps[i].0 != name
    ensures Get(ps, name) == Some(ps[j].1)
  {
    if j > 0 {
      GetAt(ps[1..], name, j - 1);
    }
  }

  /** A name no pair carries has no values. */
  lemma {:induction false} GetAllAbsent(ps: seq<Entry>, name: string)
    requires forall i :: 0 <= i < |ps| ==> ps[i].0 != name
    ensures GetAll(ps, name) == []
  {
    if ps != [] {
      GetAllAbsent(ps[1..], name);
    }
  }

  lemma {:induction false} GetAllConcat(a: seq<Entry>, b: seq<Entry>, name: string)
    ensures GetAll(a + b, name) == GetAll(a, name) + GetAll(b, name)
  {
    if a == [] {
      assert a + b == b;
    } else {
      assert (a + b)[1..] == a[1..] + b;
      GetAllConcat(a[1..], b, name);
    }
  }

  lemma {:induction false} WithoutConcat(a: seq<Entry>, b: seq<Entry>, names: set<string>)
    ensures Without(a + b, names) == Without(a, names) + Without(b, names)
  {
    if a == [] {
      assert a + b == b;
    } else {
      assert (a + b)[1..] == a[1..] + b;
      WithoutConcat(a[1..], b, names);
    }
  }

  /** Removing names leaves the values of the other names as they were. */
  lemma {:induction false} WithoutGetAll(ps: seq<Entry>, names: set<string>, name: string)
    ensures GetAll(Without(ps, names), name) == if name in names then [] else GetAll(ps, name)
  {
    if ps != [] {
      WithoutGetAll(ps[1..], names, name);
      var head := if ps[0].0 in names then [] else [ps[0]];
      GetAllConcat(head, Without(ps[1..], names), name);
    }
  }

  /** Removing a smaller set of names first changes nothing. */
  lemma {:induction false} WithoutAbsorbs(ps: seq<Entry>, small: set<string>, names: set<string>)
    requires small <= names
    ensures Without(Without(ps, small), names) == Without(ps, names)
  {
    if ps != [] {
      WithoutAbsorbs(ps[1..], small, names);
      var head := if ps[0].0 in small then [] else [ps[0]];
      WithoutConcat(head, Without(ps[1..], small), names);
    }
  }

  /** Without a name that does not occur, the list is unchanged. */
  lemma {:induction false} WithoutAbsent(ps: seq<Entry>, name: string)
    requires GetAll(ps, name) == []
    ensures Delete(ps, name) == ps
  {
    if ps != [] {
      assert ps[0].0 != name by {
        GetAllConcat([ps[0]], ps[1..], name);
        assert [ps[0]] + ps[1..] == ps;
      }
      assert GetAll(ps[1..], name) == [];
      WithoutAbsent(ps[1..], name);
      assert [ps[0]] + ps[1..] == ps;
    }
  }

  lemma {:induction false} ReplaceFirstGetAll(ps: seq<Entry>, name: string, value: string, other: string)
    requires Get(ps, name).Some?
    ensures GetAll(ReplaceFirst(ps, name, value), name) == [value]
    ensures other != name ==> GetAll(ReplaceFirst(ps, name, value), other) == GetAll(ps, other)
  {
    if ps[0].0 == name {
      GetAllConcat([(name, value)], Delete(ps[1..], name), name);
      GetAllConcat([(name, value)], Delete(ps[1..], name), other);
      WithoutGetAll(ps[1..], {name}, name);
      WithoutGetAll(ps[1..], {name}, other);
    } else {
      ReplaceFirstGetAll(ps[1..], name, value, other);
      GetAllConcat([ps[0]], ReplaceFirst(ps[1..], name, value), name);
      GetAllConcat([ps[0]], ReplaceFirst(ps[1..], name, value), other);
    }
  }

  lemma {:induction false} ReplaceFirstWithout(ps: seq<Entry>, name: string, value: string, names: set<string>)
    requires name in names
    ensures Without(ReplaceFirst(ps, name, value), names) == Without(ps, names)
  {
    if ps != [] {
      if ps[0].0 == name {
        WithoutConcat([(name, value)], Delete(ps[1..], name), names);
        WithoutAbsorbs(ps[1..], {name}, names);
      } else {
        ReplaceFirstWithout(ps[1..], name, value, names);
        WithoutConcat([ps[0]], ReplaceFirst(ps[1..], name, value), names);
      }
    }
  }

  /** After `delete`, a name has no value; every other name keeps its values. */
  lemma DeleteGetAll(ps: seq<Entry>, name: string, other: string)
    ensures GetAll(Delete(ps, name), name) == []
    ensures other != name ==> GetAll(Delete(ps, name), other) == GetAll(ps, other)
  {
    WithoutGetAll(ps, {name}, name);
    WithoutGetAll(ps, {name}, other);
  }

  /** After `set`, a name has exactly the one value set; every other name
      keeps its values. */
  lemma SetGetAll(ps: seq<Entry>, name: string, value: string, other: string)
    ensures GetAll(Set(ps, name, value), name) == [value]
    ensures other != name ==> GetAll(Set(ps, name, value), other) == GetAll(ps, other)
  {
    if Get(ps, name).None? {
      GetIsFirstOfAll(ps, name);
      GetAllConcat(ps, [(name, value)], name);
      GetAllConcat(ps, [(name, value)], other);
    } else {
      ReplaceFirstGetAll(ps, name, value, other);
    }
  }

  /** `set` and `delete` of a name touch no pair of another name: with the
      names they may touch removed, the list is what it was. */
  lemma SetDeleteTouchOnlyTheirName(ps: seq<Entry>, name: string, value: string, names: set<string>)
    requires name in names
    ensures Without(Set(ps, name, value), names) == Without(ps, names)
    ensures Without(Delete(ps, name), names) == Without(ps, names)
  {
    WithoutAbsorbs(ps, {name}, names);
    if Get(ps, name).None? {
      WithoutConcat(ps, [(name, value)], names);
      assert Without([(name, value)], names) == [];
    } else {
      ReplaceFirstWithout(ps, name, value, names);
    }
  }

  /** `set` to the value a name already has as its only value changes nothing. */
  lemma {:induction false} SetSettled(ps: seq<Entry>, name: string, value: string)
    requires GetAll(ps, name) == [value]
    ensures Set(ps, name, value) == ps
  {
    GetIsFirstOfAll(ps, name);
    ReplaceFirstSettled(ps, name, value);
  }

  lemma {:induction false} ReplaceFirstSettled(ps: seq<Entry>, name: string, value: string)
    requires GetAll(ps, name) == [value]
    ensures ReplaceFirst(ps, name, value) == ps
  {
    GetAllConcat([ps[0]], ps[1..], name);
    assert [ps[0]] + ps[1..] == ps;
    if ps[0].0 == name {
      assert GetAll([ps[0]], name) == [ps[0].1];
      assert ps[0] == (name, value) && GetAll(ps[1..], name) == [];
      WithoutAbsent(ps[1..], name);
    } else {
      ReplaceFirstSettled(ps[1..], name, value);
    }
  }

  /** `delete` of a name without values changes nothing. */
  lemma DeleteSettled(ps: seq<Entry>, name: string)
    requires GetAll(ps, name) == []
    ensures Delete(ps, name) == ps
  {
    WithoutAbsent(ps, name);
  }

  /** `append` adds one value at the end of its name's values. */
  lemma AppendGetAll(ps: seq<Entry>, name: string, value: string, other: string)
    ensures GetAll(ps + [(name, value)], name) == GetAll(ps, name) + [value]
    ensures other != name ==> GetAll(ps + [(name, value)], other) == GetAll(ps, other)
  {
    GetAllConcat(ps, [(name, value)], name);
    GetAllConcat(ps, [(name, value)], other);
  }
}
