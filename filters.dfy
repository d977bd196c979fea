/** The filter sidebar: `buildHref` rewrites the current search parameters
    with a list of updates, and each status, project and tag link is such a
    list; a status entry is highlighted from the current parameters. */
module FiltersComponent {
  import opened Common
  import opened KeyValues

  /** One update: a key and its new value; no value, or an empty one,
      removes the key. */
  type Update = (string, Option<string>)

  predicate Clears(u: Update)
  {
    u.1.None? || u.1 == Some("")
  }

  /** The effect of one update on the parameter list: `delete` or `set`. */
  function ApplyUpdate(ps: seq<Entry>, u: Update): seq<Entry>
  {
    if Clears(u) then Delete(ps, u.0) else Set(ps, u.0, u.1.value)
  }

  /** The updates applied in order. */
  function ApplyUpdates(ps: seq<Entry>, us: seq<Update>): seq<Entry>
  {
    if us == [] then ps else ApplyUpdate(ApplyUpdates(ps, us[..|us| - 1]), us[|us| - 1])
  }

  function UpdateKeys(us: seq<Update>): set<string>
  {
    set i | 0 <= i < |us| :: us[i].0
  }

  /** No key is updated twice (the updates come from an object literal). */
  predicate DistinctKeys(us: seq<Update>)
  {
    forall i, j :: 0 <= i < j < |us| ==> us[i].0 != us[j].0
  }

  /** The key of `u` is gone if `u` clears it, and otherwise has exactly the
      one value `u` gives it. */
  predicate Settled(ps: seq<Entry>, u: Update)
  {
    GetAll(ps, u.0) == if Clears(u) then [] else [u.1.value]
  }

  /** `buildHref` without the path and the serialisation: each update in
      turn deletes or sets its key. */
  method BuildHref(current: seq<Entry>, updates: seq<Update>) returns (params: seq<Entry>)
    ensures params == ApplyUpdates(current, updates)
    ensures DistinctKeys(updates) ==> forall i :: 0 <= i < |updates| ==> Settled(params, updates[i])
    ensures Without(params, UpdateKeys(updates)) == Without(current, UpdateKeys(updates))
  {
    params := current;
    for i := 0 to |updates|
      invariant params == ApplyUpdates(current, updates[..i])
    {
      var (key, value) := updates[i];
      if value.None? || value == Some("") {
        params := Delete(params, key);
      } else {
        params := Set(params, key, value.value);
      }
      assert updates[..i + 1][..i] == updates[..i];
    }
    assert updates[..|updates|] == updates;
    if DistinctKeys(updates) {
      UpdatesSettle(current, updates);
    }
    UpdatesKeepOtherKeys(current, updates, UpdateKeys(updates));
  }

  lemma ApplyUpdateSettles(ps: seq<Entry>, u: Update, other: string)
    ensures Settled(ApplyUpdate(ps, u), u)
    ensures other != u.0 ==> GetAll(ApplyUpdate(ps, u), other) == GetAll(ps, other)
  {
    if Clears(u) {
      DeleteGetAll(ps, u.0, other);
    } else {
      SetGetAll(ps, u.0, u.1.value, other);
    }
  }

  /** With distinct keys, every update holds in the result: a cleared key is
      absent and a set key occurs once with its value. */
  lemma {:induction false} UpdatesSettle(ps: seq<Entry>, us: seq<Update>)
    requires DistinctKeys(us)
    ensures forall i :: 0 <= i < |us| ==> Settled(ApplyUpdates(ps, us), us[i])
  {
    if us != [] {
      var init := us[..|us| - 1];
      var last := us[|us| - 1];
      assert DistinctKeys(init);
      UpdatesSettle(ps, init);
      var before := ApplyUpdates(ps, init);
      forall i | 0 <= i < |us| ensures Settled(ApplyUpdates(ps, us), us[i]) {
        ApplyUpdateSettles(before, last, us[i].0);
        if i < |us| - 1 {
          assert us[i] == init[i];
        }
      }
    }
  }

  /** Keys outside the updated ones keep their entries, in their order. */
  lemma {:induction false} UpdatesKeepOtherKeys(ps: seq<Entry>, us: seq<Update>, keys: set<string>)
    requires UpdateKeys(us) <= keys
    ensures Without(ApplyUpdates(ps, us), keys) == Without(ps, keys)
  {
    if us != [] {
      var init := us[..|us| - 1];
      var last := us[|us| - 1];
      assert UpdateKeys(init) <= UpdateKeys(us) by {
        forall k | k in UpdateKeys(init) ensures k in UpdateKeys(us) {
          var i :| 0 <= i < |init| && init[i].0 == k;
          assert us[i] == init[i];
        }
      }
      assert last.0 in UpdateKeys(us);
      UpdatesKeepOtherKeys(ps, init, keys);
      if Clears(last) {
        SetDeleteTouchOnlyTheirName(ApplyUpdates(ps, init), last.0, "", keys);
      } else {
        SetDeleteTouchOnlyTheirName(ApplyUpdates(ps, init), last.0, last.1.value, keys);
      }
    }
  }

  /** The value of a key that no update names is unchanged. */
  lemma OtherKeyUnchanged(ps: seq<Entry>, us: seq<Update>, key: string)
    requires key !in UpdateKeys(us)
    ensures GetAll(ApplyUpdates(ps, us), key) == GetAll(ps, key)
    ensures Get(ApplyUpdates(ps, us), key) == Get(ps, key)
  {
    var keys := UpdateKeys(us);
    UpdatesKeepOtherKeys(ps, us, keys);
    WithoutGetAll(ApplyUpdates(ps, us), keys, key);
    WithoutGetAll(ps, keys, key);
    GetIsFirstOfAll(ApplyUpdates(ps, us), key);
    GetIsFirstOfAll(ps, key);
  }

  /** A parameter list that already satisfies every update is left alone. */
  lemma {:induction false} SettledUpdatesChangeNothing(ps: seq<Entry>, us: seq<Update>)
    requires forall i :: 0 <= i < |us| ==> Settled(ps, us[i])
    ensures ApplyUpdates(ps, us) == ps
  {
    if us != [] {
      var init := us[..|us| - 1];
      var last := us[|us| - 1];
      forall i | 0 <= i < |init| ensures Settled(ps, init[i]) {
        assert init[i] == us[i];
      }
      SettledUpdatesChangeNothing(ps, init);
      assert Settled(ps, last);
      if Clears(last) {
        DeleteSettled(ps, last.0);
      } else {
        SetSettled(ps, last.0, last.1.value);
      }
    }
  }

  /** Following a link twice is following it once. */
  lemma UpdatesIdempotent(ps: seq<Entry>, us: seq<Update>)
    requires DistinctKeys(us)
    ensures ApplyUpdates(ApplyUpdates(ps, us), us) == ApplyUpdates(ps, us)
  {
    UpdatesSettle(ps, us);
    SettledUpdatesChangeNothing(ApplyUpdates(ps, us), us);
  }

  /** The updates of a status entry, a project entry and a tag entry. */
  function StatusLink(value: string): seq<Update>
  {
    [("status", Some(value)), ("project", None), ("tag", None)]
  }

  function ProjectLink(id: string): seq<Update>
  {
    [("project", Some(id)), ("status", None), ("tag", None)]
  }

  function TagLink(id: string): seq<Update>
  {
    [("tag", Some(id)), ("project", None), ("status", None)]
  }

  /** `searchParams.get(key) ?? ""` */
  function Current(ps: seq<Entry>, key: string): string
  {
    match Get(ps, key)
    case Some(v) => v
    case None => ""
  }

  /** A status entry is highlighted when it is the current status and no
      project and no tag is selected. */
  predicate StatusActive(ps: seq<Entry>, value: string)
  {
    Current(ps, "status") == value && Current(ps, "project") == "" && Current(ps, "tag") == ""
  }

  lemma LinkKeys(v: string)
    ensures DistinctKeys(StatusLink(v)) && UpdateKeys(StatusLink(v)) == {"status", "project", "tag"}
    ensures DistinctKeys(ProjectLink(v)) && UpdateKeys(ProjectLink(v)) == {"status", "project", "tag"}
    ensures DistinctKeys(TagLink(v)) && UpdateKeys(TagLink(v)) == {"status", "project", "tag"}
  {
    assert StatusLink(v)[0].0 == "status" && StatusLink(v)[1].0 == "project" && StatusLink(v)[2].0 == "tag";
    assert ProjectLink(v)[0].0 == "project" && ProjectLink(v)[1].0 == "status" && ProjectLink(v)[2].0 == "tag";
    assert TagLink(v)[0].0 == "tag" && TagLink(v)[1].0 == "project" && TagLink(v)[2].0 == "status";
  }

  lemma CurrentOfSettled(ps: seq<Entry>, u: Update)
    requires Settled(ps, u)
    ensures Current(ps, u.0) == if Clears(u) then "" else u.1.value
  {
    GetIsFirstOfAll(ps, u.0);
  }

  /** The result of a link with distinct keys: every key it names is settled
      and every other key keeps its values. */
  lemma LinkEffect(ps: seq<Entry>, us: seq<Update>, key: string)
    requires DistinctKeys(us)
    ensures forall i :: 0 <= i < |us| ==> Settled(ApplyUpdates(ps, us), us[i])
    ensures key !in UpdateKeys(us) ==> GetAll(ApplyUpdates(ps, us), key) == GetAll(ps, key)
  {
    UpdatesSettle(ps, us);
    if key !in UpdateKeys(us) {
      OtherKeyUnchanged(ps, us, key);
    }
  }

  /** Each link clears the two other filters and sets its own, and keeps the
      search and sort parameters. */
  lemma StatusLinkClearsTheOthers(ps: seq<Entry>, v: string, key: string)
    requires key !in {"status", "project", "tag"}
    ensures var r := ApplyUpdates(ps, StatusLink(v));
      && GetAll(r, "project") == [] && GetAll(r, "tag") == []
      && GetAll(r, "status") == (if v == "" then [] else [v])
      && GetAll(r, key) == GetAll(ps, key)
  {
    var us := StatusLink(v);
    LinkKeys(v);
    LinkEffect(ps, us, key);
    assert Settled(ApplyUpdates(ps, us), us[0]);
    assert Settled(ApplyUpdates(ps, us), us[1]);
    assert Settled(ApplyUpdates(ps, us), us[2]);
  }

  lemma ProjectLinkClearsTheOthers(ps: seq<Entry>, id: string, key: string)
    requires key !in {"status", "project", "tag"}
    ensures var r := ApplyUpdates(ps, ProjectLink(id));
      && GetAll(r, "status") == [] && GetAll(r, "tag") == []
      && GetAll(r, "project") == (if id == "" then [] else [id])
      && GetAll(r, key) == GetAll(ps, key)
  {
    var us := ProjectLink(id);
    LinkKeys(id);
    LinkEffect(ps, us, key);
    assert Settled(ApplyUpdates(ps, us), us[0]);
    assert Settled(ApplyUpdates(ps, us), us[1]);
    assert Settled(ApplyUpdates(ps, us), us[2]);
  }

  lemma TagLinkClearsTheOthers(ps: seq<Entry>, id: string, key: string)
    requires key !in {"status", "project", "tag"}
    ensures var r := ApplyUpdates(ps, TagLink(id));
      && GetAll(r, "status") == [] && GetAll(r, "project") == []
      && GetAll(r, "tag") == (if id == "" then [] else [id])
      && GetAll(r, key) == GetAll(ps, key)
  {
    var us := TagLink(id);
    LinkKeys(id);
    LinkEffect(ps, us, key);
    assert Settled(ApplyUpdates(ps, us), us[0]);
    assert Settled(ApplyUpdates(ps, us), us[1]);
    assert Settled(ApplyUpdates(ps, us), us[2]);
  }

  /** After following a status entry exactly that entry is highlighted;
      after following a project or tag entry with a non-empty id no status
      entry is, and the entry's own id is the current one. */
  lemma FollowedLinkIsHighlighted(ps: seq<Entry>, v: string, other: string, id: string)
    requires id != ""
    ensures StatusActive(ApplyUpdates(ps, StatusLink(v)), other) <==> other == v
    ensures !StatusActive(ApplyUpdates(ps, ProjectLink(id)), other)
    ensures Current(ApplyUpdates(ps, ProjectLink(id)), "project") == id
    ensures !StatusActive(ApplyUpdates(ps, TagLink(id)), other)
    ensures Current(ApplyUpdates(ps, TagLink(id)), "tag") == id
  {
    LinkKeys(v);
    LinkKeys(id);
    UpdatesSettle(ps, StatusLink(v));
    UpdatesSettle(ps, ProjectLink(id));
    UpdatesSettle(ps, TagLink(id));
    CurrentOfSettled(ApplyUpdates(ps, StatusLink(v)), StatusLink(v)[0]);
    CurrentOfSettled(ApplyUpdates(ps, StatusLink(v)), StatusLink(v)[1]);
    CurrentOfSettled(ApplyUpdates(ps, StatusLink(v)), StatusLink(v)[2]);
    CurrentOfSettled(ApplyUpdates(ps, ProjectLink(id)), ProjectLink(id)[0]);
    CurrentOfSettled(ApplyUpdates(ps, TagLink(id)), TagLink(id)[0]);
  }
}
