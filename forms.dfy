/** Helpers the two task forms share: the normalisation of a typed tag name
    (trim, lower-case, each run of whitespace to one hyphen), the toggle of
    a tag id in the selection, and the form data a form submits. */
module Forms {
  import opened Common
  import opened KeyValues
  import opened TagActions
  import opened TaskActions

  /** The characters JavaScript's `trim` removes and `\s` matches: white
      space (including no-break space and the byte-order mark), the Unicode
      space separators, and the line terminators. */
  predicate IsSpace(c: char)
  {
    c == '\t' || c == '\n' || c == '\U{000B}' || c == '\U{000C}' || c == '\r' || c == ' '
    || c == '\U{00A0}' || c == '\U{1680}' || ('\U{2000}' <= c <= '\U{200A}')
    || c == '\U{2028}' || c == '\U{2029}' || c == '\U{202F}' || c == '\U{205F}'
    || c == '\U{3000}' || c == '\U{FEFF}'
  }

  predicate NoSpace(s: string)
  {
    forall i :: 0 <= i < |s| ==> !IsSpace(s[i])
  }

  predicate AllSpace(s: string)
  {
    forall i :: 0 <= i < |s| ==> IsSpace(s[i])
  }

  predicate NoUpper(s: string)
  {
    forall i :: 0 <= i < |s| ==> !('A' <= s[i] <= 'Z')
  }

  /** The suffix of `s` after its leading whitespace. */
  function TrimStart(s: string): (r: string)
    ensures |r| <= |s| && r == s[|s| - |r|..]
    ensures AllSpace(s[..|s| - |r|])
    ensures r == [] || !IsSpace(r[0])
  {
    if s != [] && IsSpace(s[0]) then
      var r := TrimStart(s[1..]);
      assert s[1..][..|s| - 1 - |r|] == s[1..|s| - |r|];
      r
    else
      s
  }

  /** The prefix of `s` before its trailing whitespace. */
  function TrimEnd(s: string): (r: string)
    ensures |r| <= |s| && r == s[..|r|]
    ensures AllSpace(s[|r|..])
    ensures r == [] || !IsSpace(r[|r| - 1])
  {
    if s != [] && IsSpace(s[|s| - 1]) then
      var r := TrimEnd(s[..|s| - 1]);
      assert s[..|s| - 1][|r|..] == s[|r|..|s| - 1];
      r
    else
      s
  }

  function Trim(s: string): string
  {
    TrimEnd(TrimStart(s))
  }

  /** `toLowerCase` on ASCII letters; every other character is kept. */
  function LowerChar(c: char): char
  {
    if 'A' <= c <= 'Z' then (c as int - 'A' as int + 'a' as int) as char else c
  }

  function Lower(s: string): string
  {
    seq(|s|, i requires 0 <= i < |s| => LowerChar(s[i]))
  }

  /** `replace(/\s+/g, "-")`: each maximal run of whitespace becomes one hyphen. */
  function CollapseSpaces(s: string): string
    decreases |s|
  {
    if s == [] then []
    else if IsSpace(s[0]) then "-" + CollapseSpaces(TrimStart(s[1..]))
    else [s[0]] + CollapseSpaces(s[1..])
  }

  /** The name `handleCreateTag` sends: trimmed, lower-cased, and with every
      run of whitespace turned into a hyphen. */
  function NormaliseTagName(typed: string): string
  {
    CollapseSpaces(Lower(Trim(typed)))
  }

  /** Trimming leaves nothing exactly when there was only whitespace. */
  lemma TrimEmptyIffAllSpace(s: string)
    ensures Trim(s) == [] <==> AllSpace(s)
  {
    var t := TrimStart(s);
    if t != [] {
      assert t[0] == s[|s| - |t|];
    }
    if Trim(s) == [] {
      assert t[0..] == t;
      assert s[..|s|] == s;
    }
  }

  /** Trimming a string without whitespace changes nothing. */
  lemma TrimNoSpace(s: string)
    requires NoSpace(s)
    ensures Trim(s) == s
  {
    if s != [] {
      assert !IsSpace(s[0]) && !IsSpace(s[|s| - 1]);
    }
  }

  /** Every character of `r` is a hyphen or a character of `s` that is not
      whitespace. */
  predicate HyphensAndCharsOf(r: string, s: string)
  {
    forall c :: c in r ==> c == '-' || (c in s && !IsSpace(c))
  }

  /** Collapsing only ever writes hyphens and the input's other characters. */
  lemma {:induction false} CollapseChars(s: string)
    ensures HyphensAndCharsOf(CollapseSpaces(s), s)
    decreases |s|
  {
    if s == [] {
    } else if IsSpace(s[0]) {
      var t := TrimStart(s[1..]);
      assert t == s[|s| - |t|..];
      CollapseChars(t);
      SuffixChars(s, |s| - |t|);
      var r := CollapseSpaces(t);
      forall c | c in "-" + r ensures c == '-' || (c in s && !IsSpace(c)) {
        if c != '-' {
          assert c in r;
        }
      }
    } else {
      CollapseChars(s[1..]);
      SuffixChars(s, 1);
      var r := CollapseSpaces(s[1..]);
      forall c | c in [s[0]] + r ensures c == '-' || (c in s && !IsSpace(c)) {
        if c != s[0] {
          assert c in r;
        }
      }
    }
  }

  lemma SuffixChars(s: string, k: int)
    requires 0 <= k <= |s|
    ensures forall c :: c in s[k..] ==> c in s
  {
    forall c | c in s[k..] ensures c in s {
      var i :| 0 <= i < |s[k..]| && s[k..][i] == c;
      assert s[k + i] == c;
    }
  }

  lemma CollapseNoSpace(s: string)
    ensures NoSpace(CollapseSpaces(s))
  {
    CollapseChars(s);
    var r := CollapseSpaces(s);
    forall i | 0 <= i < |r| ensures !IsSpace(r[i]) {
      assert r[i] in r;
    }
  }

  /** Collapsing leaves nothing only when there was nothing. */
  lemma CollapseEmpty(s: string)
    ensures CollapseSpaces(s) == [] <==> s == []
  {
  }

  /** Collapsing a string without whitespace changes nothing. */
  lemma {:induction false} CollapseNoSpaceIdentity(s: string)
    requires NoSpace(s)
    ensures CollapseSpaces(s) == s
  {
    if s != [] {
      CollapseNoSpaceIdentity(s[1..]);
      assert [s[0]] + s[1..] == s;
    }
  }

  /** Leading whitespace before a non-blank start is dropped exactly. */
  lemma {:induction false} TrimStartOfRun(w: string, b: string)
    requires AllSpace(w)
    requires b == [] || !IsSpace(b[0])
    ensures TrimStart(w + b) == b
  {
    if w == [] {
      assert w + b == b;
    } else {
      assert (w + b)[1..] == w[1..] + b;
      TrimStartOfRun(w[1..], b);
    }
  }

  /** A run of whitespace after a word becomes exactly one hyphen, and
      what follows the run is collapsed on its own. */
  lemma {:induction false} CollapseRun(a: string, w: string, b: string)
    requires NoSpace(a) && w != [] && AllSpace(w)
    requires b == [] || !IsSpace(b[0])
    ensures CollapseSpaces(a + w + b) == CollapseSpaces(a) + "-" + CollapseSpaces(b)
  {
    if a == [] {
      assert a + w + b == w + b;
      assert (w + b)[1..] == w[1..] + b;
      TrimStartOfRun(w[1..], b);
    } else {
      assert (a + w + b)[0] == a[0];
      assert (a + w + b)[1..] == a[1..] + w + b;
      CollapseRun(a[1..], w, b);
    }
  }

  lemma LowerNoUpper(s: string)
    ensures |Lower(s)| == |s| && NoUpper(Lower(s))
    ensures NoUpper(s) ==> Lower(s) == s
  {
  }

  /** Collapsing keeps a string free of upper-case letters. */
  lemma CollapseNoUpper(s: string)
    requires NoUpper(s)
    ensures NoUpper(CollapseSpaces(s))
  {
    CollapseChars(s);
    var r := CollapseSpaces(s);
    forall i | 0 <= i < |r| ensures !('A' <= r[i] <= 'Z') {
      assert r[i] in r;
      if r[i] != '-' {
        var k :| 0 <= k < |s| && s[k] == r[i];
      }
    }
  }

  /** A normalised name has no whitespace and no upper-case letter; it is
      empty exactly when only whitespace was typed; normalising it again
      changes nothing. */
  lemma NormalisedName(typed: string)
    ensures NoSpace(NormaliseTagName(typed)) && NoUpper(NormaliseTagName(typed))
    ensures NormaliseTagName(typed) == [] <==> AllSpace(typed)
    ensures NormaliseTagName(NormaliseTagName(typed)) == NormaliseTagName(typed)
  {
    var trimmed := Trim(typed);
    var lowered := Lower(trimmed);
    var r := CollapseSpaces(lowered);
    LowerNoUpper(trimmed);
    CollapseNoSpace(lowered);
    CollapseNoUpper(lowered);
    TrimEmptyIffAllSpace(typed);
    CollapseEmpty(lowered);
    TrimNoSpace(r);
    LowerNoUpper(r);
    CollapseNoSpaceIdentity(r);
  }

  predicate TypedTagChar(c: char)
  {
    TagNameChar(c) || ('A' <= c <= 'Z') || IsSpace(c)
  }

  /** Trimming keeps only characters of the input. */
  lemma TrimChars(s: string)
    ensures forall c :: c in Trim(s) ==> c in s
  {
    var t := TrimStart(s);
    forall c | c in Trim(s) ensures c in s {
      var k :| 0 <= k < |Trim(s)| && Trim(s)[k] == c;
      assert c == t[k];
      assert c == s[|s| - |t| + k];
    }
  }

  /** Lower-casing a string typed from letters, digits, hyphens and
      whitespace leaves only the tag schema's characters and whitespace. */
  lemma LowerTypedChars(s: string)
    requires forall c :: c in s ==> TypedTagChar(c)
    ensures forall i :: 0 <= i < |Lower(s)| ==> TagNameChar(Lower(s)[i]) || IsSpace(Lower(s)[i])
  {
    forall i | 0 <= i < |Lower(s)| ensures TagNameChar(Lower(s)[i]) || IsSpace(Lower(s)[i]) {
      assert s[i] in s;
    }
  }

  /** A name typed from letters, digits, hyphens and whitespace normalises
      to a name the tag schema accepts, as long as its length is 1 to 50. */
  lemma NormalisedNameIsValidTagName(typed: string)
    requires forall i :: 0 <= i < |typed| ==> TypedTagChar(typed[i])
    requires 1 <= |NormaliseTagName(typed)| <= 50
    ensures ValidTagName(NormaliseTagName(typed))
  {
    var trimmed := Trim(typed);
    TrimChars(typed);
    forall c | c in trimmed ensures TypedTagChar(c) {
      var k :| 0 <= k < |typed| && typed[k] == c;
    }
    var lowered := Lower(trimmed);
    LowerTypedChars(trimmed);
    CollapseChars(lowered);
    var r := CollapseSpaces(lowered);
    forall i | 0 <= i < |r| ensures TagNameChar(r[i]) {
      assert r[i] in r;
      if r[i] != '-' {
        var k :| 0 <= k < |lowered| && lowered[k] == r[i];
      }
    }
  }

  /** `prev.filter((id) => id !== removed)` */
  function RemoveId(ids: seq<string>, removed: string): seq<string>
  {
    if ids == [] then []
    else (if ids[0] == removed then [] else [ids[0]]) + RemoveId(ids[1..], removed)
  }

  /** The selection after clicking a tag: without it if it was selected,
      with it appended otherwise. */
  function Toggle(ids: seq<string>, id: string): seq<string>
  {
    if id in ids then RemoveId(ids, id) else ids + [id]
  }

  predicate Distinct(ids: seq<string>)
  {
    forall i, j :: 0 <= i < j < |ids| ==> ids[i] != ids[j]
  }

  lemma {:induction false} RemoveIdMembers(ids: seq<string>, removed: string)
    ensures forall x :: x in RemoveId(ids, removed) <==> x in ids && x != removed
    ensures Distinct(ids) ==> Distinct(RemoveId(ids, removed))
    ensures removed !in ids ==> RemoveId(ids, removed) == ids
  {
    if ids != [] {
      RemoveIdMembers(ids[1..], removed);
      var head := if ids[0] == removed then [] else [ids[0]];
      var r := RemoveId(ids, removed);
      assert r == head + RemoveId(ids[1..], removed);
      if Distinct(ids) {
        assert Distinct(ids[1..]);
        assert ids[0] !in ids[1..];
      }
      if removed !in ids {
        assert [ids[0]] + ids[1..] == ids;
      }
    }
  }

  /** Clicking a tag flips its membership and no other; on a duplicate-free
      selection the result stays duplicate-free. */
  lemma ToggleFlips(ids: seq<string>, id: string)
    ensures id in Toggle(ids, id) <==> id !in ids
    ensures forall x :: x != id ==> (x in Toggle(ids, id) <==> x in ids)
    ensures Distinct(ids) ==> Distinct(Toggle(ids, id))
  {
    RemoveIdMembers(ids, id);
  }

  /** Clicking a tag twice restores the membership of every id, and the very
      selection when the tag was not selected. */
  lemma ToggleTwice(ids: seq<string>, id: string)
    ensures forall x :: x in Toggle(Toggle(ids, id), id) <==> x in ids
    ensures id !in ids ==> Toggle(Toggle(ids, id), id) == ids
  {
    ToggleFlips(ids, id);
    ToggleFlips(Toggle(ids, id), id);
    if id !in ids {
      RemoveIdAppended(ids, id);
    }
  }

  lemma {:induction false} RemoveIdAppended(ids: seq<string>, id: string)
    requires id !in ids
    ensures RemoveId(ids + [id], id) == ids
  {
    if ids == [] {
      assert [] + [id] == [id];
    } else {
      assert (ids + [id])[1..] == ids[1..] + [id];
      RemoveIdAppended(ids[1..], id);
      assert [ids[0]] + ids[1..] == ids;
    }
  }

  /** The state of a task form at submission. */
  datatype FormFields = FormFields(
    title: string,
    notes: string,
    status: Status,
    priority: Priority,
    dueDate: string,
    projectId: string,
    tagIds: seq<string>)

  /** One `tagIds` pair per selected id, in selection order. */
  function TagEntries(ids: seq<string>): seq<Entry>
  {
    if ids == [] then [] else TagEntries(ids[..|ids| - 1]) + [("tagIds", ids[|ids| - 1])]
  }

  function FieldEntries(f: FormFields): seq<Entry>
  {
    [("title", f.title), ("notes", f.notes), ("status", StatusName(f.status)),
     ("priority", PriorityName(f.priority)), ("dueDate", f.dueDate), ("projectId", f.projectId)]
  }

  /** The form data a form submits. */
  function Encode(f: FormFields): seq<Entry>
  {
    FieldEntries(f) + TagEntries(f.tagIds)
  }

  /** The `tagIds` pairs give back the ids in order and nothing else. */
  lemma {:induction false} TagEntriesGetAll(ids: seq<string>, name: string)
    ensures GetAll(TagEntries(ids), name) == if name == "tagIds" then ids else []
  {
    if ids != [] {
      var init := ids[..|ids| - 1];
      TagEntriesGetAll(init, name);
      AppendGetAll(TagEntries(init), "tagIds", ids[|ids| - 1], name);
      assert init + [ids[|ids| - 1]] == ids;
    }
  }

  /** `handleSubmit`: the six fields, then one `tagIds` pair per selected id. */
  method BuildFormData(f: FormFields) returns (fd: seq<Entry>)
    ensures fd == Encode(f)
    ensures GetAll(fd, "tagIds") == f.tagIds
  {
    fd := [];
    fd := fd + [("title", f.title)];
    fd := fd + [("notes", f.notes)];
    fd := fd + [("status", StatusName(f.status))];
    fd := fd + [("priority", PriorityName(f.priority))];
    fd := fd + [("dueDate", f.dueDate)];
    fd := fd + [("projectId", f.projectId)];
    assert fd == FieldEntries(f);
    for i := 0 to |f.tagIds|
      invariant fd == FieldEntries(f) + TagEntries(f.tagIds[..i])
    {
      fd := fd + [("tagIds", f.tagIds[i])];
      assert f.tagIds[..i + 1][..i] == f.tagIds[..i];
    }
    assert f.tagIds[..|f.tagIds|] == f.tagIds;
    EncodedFields(f);
  }

  /** What the task action reads back from a submitted form. */
  lemma EncodedFields(f: FormFields)
    ensures Get(Encode(f), "title") == Some(f.title)
    ensures Get(Encode(f), "notes") == Some(f.notes)
    ensures Get(Encode(f), "status") == Some(StatusName(f.status))
    ensures Get(Encode(f), "priority") == Some(PriorityName(f.priority))
    ensures Get(Encode(f), "dueDate") == Some(f.dueDate)
    ensures Get(Encode(f), "projectId") == Some(f.projectId)
    ensures GetAll(Encode(f), "tagIds") == f.tagIds
  {
    var fd := Encode(f);
    GetAt(fd, "title", 0);
    GetAt(fd, "notes", 1);
    GetAt(fd, "status", 2);
    GetAt(fd, "priority", 3);
    GetAt(fd, "dueDate", 4);
    GetAt(fd, "projectId", 5);
    FieldsCarryNoTagIds(f);
    GetAllConcat(FieldEntries(f), TagEntries(f.tagIds), "tagIds");
    TagEntriesGetAll(f.tagIds, "tagIds");
  }

  lemma FieldsCarryNoTagIds(f: FormFields)
    ensures GetAll(FieldEntries(f), "tagIds") == []
  {
    GetAllAbsent(FieldEntries(f), "tagIds");
  }

  /** A submitted form parses to exactly its fields, with empty notes, due
      date and project read as absent, when its title has 1 to 200
      characters, and is rejected otherwise. */
  lemma EncodedFormParses(f: FormFields)
    ensures ValidTitle(f.title) ==>
      ParseTaskForm(Encode(f)) == Success(TaskData(
        f.title, NonEmpty(Some(f.notes)), f.status, f.priority,
        NonEmpty(Some(f.dueDate)), NonEmpty(Some(f.projectId)), f.tagIds))
    ensures !ValidTitle(f.title) ==> ParseTaskForm(Encode(f)) == Failure(Invalid)
  {
    EncodedFields(f);
    StatusNameRoundTrip(f.status);
    PriorityNameRoundTrip(f.priority);
  }
}
