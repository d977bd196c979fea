/** The tag server actions: the tag-name schema, create as an upsert keyed
    by name, and delete. */
module TagActions {
  import opened Common

  predicate TagNameChar(c: char)
  {
    'a' <= c <= 'z' || '0' <= c <= '9' || c == '-'
  }

  /** The tag schema: 1 to 50 characters, each a lower-case ASCII letter, a
      digit or a hyphen (`/^[a-z0-9-]+$/`). */
  predicate ValidTagName(name: string)
  {
    1 <= |name| <= 50 && forall i :: 0 <= i < |name| ==> TagNameChar(name[i])
  }

  /** No two tags share a name. */
  ghost predicate NamesUnique(tags: map<string, string>)
  {
    forall a, b :: a in tags && b in tags && tags[a] == tags[b] ==> a == b
  }

  /** The tag table, by id, to the tag's name. */
  class TagStore {
    var tags: map<string, string>

    ghost predicate Valid()
      reads this
    {
      NamesUnique(tags)
    }

    constructor ()
      ensures Valid() && tags == map[]
    {
      tags := map[];
    }

    /** `createTag`: an invalid name fails before the table is touched; the
        upsert answers the tag already holding the name, unchanged, or
        creates a tag under the fresh id `newId` the store assigns. */
    method CreateTag(name: string, newId: string) returns (r: Result<Tag>)
      requires Valid() && newId !in tags
      modifies this
      ensures Valid()
      ensures !ValidTagName(name) ==> r == Failure(Invalid) && tags == old(tags)
      ensures ValidTagName(name) && name in old(tags).Values ==>
        r.Success? && r.value.id in old(tags) && r.value.name == name
        && old(tags)[r.value.id] == name && tags == old(tags)
      ensures ValidTagName(name) && name !in old(tags).Values ==>
        r == Success(Named(newId, name)) && tags == old(tags)[newId := name]
      ensures r.Success? ==> r.value.id in tags && tags[r.value.id] == name
    {
      if !ValidTagName(name) {
        return Failure(Invalid);
      }
      if name in tags.Values {
        var id :| id in tags && tags[id] == name;
        return Success(Named(id, name));
      }
      tags := tags[newId := name];
      r := Success(Named(newId, name));
    }

    /** `deleteTag`: only the tag with that id goes. */
    method DeleteTag(id: string) returns (outcome: Outcome)
      requires Valid()
      modifies this
      ensures Valid()
      ensures outcome == if id in old(tags) then Pass else Fail(NotFound)
      ensures tags == old(tags) - {id}
    {
      if id !in tags {
        return Fail(NotFound);
      }
      tags := tags - {id};
      outcome := Pass;
    }
  }

  /** Creating a tag twice under the same name answers the same tag both
      times, and only the first call can add a row. */
  method CreateTwice(store: TagStore, name: string, id1: string, id2: string)
    returns (first: Result<Tag>, second: Result<Tag>)
    requires store.Valid() && id1 !in store.tags && id2 !in store.tags && id1 != id2
    modifies store
    ensures store.Valid()
    ensures first == second
    ensures store.tags.Keys <= old(store.tags).Keys + {id1}
  {
    first := store.CreateTag(name, id1);
    second := store.CreateTag(name, id2);
    if first.Success? {
      assert store.tags[first.value.id] == name;
    }
  }
}
