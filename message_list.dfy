/**
 * The id-keyed list updates shared by the conversation screen
 * (screens/chat/ConversationScreen.tsx) and the message-page updaters
 * (services/MessageService.ts): dedupe-prepend on create, replace-by-id on
 * update, filter-by-id on delete.
 */
module MessageList {
  import opened Domain

  function MessageIds(ms: seq<Message>): (ids: seq<string>)
    ensures |ids| == |ms|
    ensures forall i :: 0 <= i < |ms| ==> ids[i] == ms[i].id
  {
    seq(|ms|, i requires 0 <= i < |ms| => ms[i].id)
  }

  /** The page-cache invariant: no id occurs twice. */
  ghost predicate UniqueIds(ms: seq<Message>) {
    forall i, j :: 0 <= i < j < |ms| ==> ms[i].id != ms[j].id
  }

  /** `ms.some(m => m.id === id)`. */
  function HasId(ms: seq<Message>, id: string): (b: bool)
    ensures b <==> exists i :: 0 <= i < |ms| && ms[i].id == id
  {
    if ms == [] then false else ms[0].id == id || HasId(ms[1..], id)
  }

  /** The create-event update: prepend unless a message with that id is already listed. */
  function PrependIfAbsent(ms: seq<Message>, m: Message): seq<Message> {
    if HasId(ms, m.id) then ms else [m] + ms
  }

  /**
   * A create event leaves the list holding the id exactly once more than
   * nothing: the id is present afterwards, the list keeps unique ids, and an
   * echoed duplicate changes nothing.
   */
  lemma PrependIfAbsentFacts(ms: seq<Message>, m: Message)
    ensures HasId(PrependIfAbsent(ms, m), m.id)
    ensures UniqueIds(ms) ==> UniqueIds(PrependIfAbsent(ms, m))
    ensures PrependIfAbsent(PrependIfAbsent(ms, m), m) == PrependIfAbsent(ms, m)
    ensures forall x :: x in ms ==> x in PrependIfAbsent(ms, m)
    ensures !HasId(ms, m.id) ==> PrependIfAbsent(ms, m)[0] == m && PrependIfAbsent(ms, m)[1..] == ms
  {
    var r := PrependIfAbsent(ms, m);
    assert r[0] == m || HasId(ms, m.id);
    if !HasId(ms, m.id) {
      assert r[0].id == m.id;
      if UniqueIds(ms) { UniqueCons(m, ms); }
    }
  }

  /** `ms.map(x => x.id === u.id ? {...x, ...u} : x)`; the incoming record carries every field. */
  function ReplaceById(ms: seq<Message>, u: Message): (r: seq<Message>)
    ensures |r| == |ms|
  {
    seq(|ms|, i requires 0 <= i < |ms| => if ms[i].id == u.id then u else ms[i])
  }

  /**
   * The update keeps length, order and ids; it rewrites exactly the entries
   * with the incoming id, keeps unique ids, and is idempotent.
   */
  lemma ReplaceByIdFacts(ms: seq<Message>, u: Message)
    ensures MessageIds(ReplaceById(ms, u)) == MessageIds(ms)
    ensures forall i :: 0 <= i < |ms| && ms[i].id != u.id ==> ReplaceById(ms, u)[i] == ms[i]
    ensures forall i :: 0 <= i < |ms| && ms[i].id == u.id ==> ReplaceById(ms, u)[i] == u
    ensures UniqueIds(ms) ==> UniqueIds(ReplaceById(ms, u))
    ensures ReplaceById(ReplaceById(ms, u), u) == ReplaceById(ms, u)
    ensures !HasId(ms, u.id) ==> ReplaceById(ms, u) == ms
  {
  }

  /** `ms.filter(m => m.id !== id)`. */
  function RemoveById(ms: seq<Message>, id: string): (r: seq<Message>)
    ensures |r| <= |ms|
    ensures forall x :: x in r <==> x in ms && x.id != id
  {
    if ms == [] then [] else (if ms[0].id == id then [] else [ms[0]]) + RemoveById(ms[1..], id)
  }

  lemma UniqueTail(ms: seq<Message>)
    requires ms != [] && UniqueIds(ms)
    ensures UniqueIds(ms[1..])
    ensures !HasId(ms[1..], ms[0].id)
  {
    forall i, j | 0 <= i < j < |ms| - 1 ensures ms[1..][i].id != ms[1..][j].id {
      assert ms[1..][i] == ms[i + 1] && ms[1..][j] == ms[j + 1];
    }
    forall k | 0 <= k < |ms| - 1 ensures ms[1..][k].id != ms[0].id {
      assert ms[1..][k] == ms[k + 1];
    }
  }

  lemma UniqueCons(m: Message, ms: seq<Message>)
    requires UniqueIds(ms) && !HasId(ms, m.id)
    ensures UniqueIds([m] + ms)
  {
    var r := [m] + ms;
    forall i, j | 0 <= i < j < |r| ensures r[i].id != r[j].id {
      assert r[j] == ms[j - 1];
      if i > 0 { assert r[i] == ms[i - 1]; }
    }
  }

  /** No entry of the filtered list has the deleted id. */
  lemma RemoveByIdGone(ms: seq<Message>, id: string)
    ensures !HasId(RemoveById(ms, id), id)
  {
    var r := RemoveById(ms, id);
    forall k | 0 <= k < |r| ensures r[k].id != id {
      assert r[k] in r;
    }
  }

  /** Filtering never reintroduces a duplicate id. */
  lemma {:induction false} RemoveByIdUnique(ms: seq<Message>, id: string)
    requires UniqueIds(ms)
    ensures UniqueIds(RemoveById(ms, id))
  {
    if ms != [] {
      UniqueTail(ms);
      RemoveByIdUnique(ms[1..], id);
      var rest := RemoveById(ms[1..], id);
      if ms[0].id != id {
        forall k | 0 <= k < |rest| ensures rest[k].id != ms[0].id {
          assert rest[k] in rest;
          assert rest[k] in ms[1..];
        }
        UniqueCons(ms[0], rest);
      }
    }
  }

  /** Deleting an id that is not listed changes nothing. */
  lemma {:induction false} RemoveByIdAbsent(ms: seq<Message>, id: string)
    requires !HasId(ms, id)
    ensures RemoveById(ms, id) == ms
  {
    if ms != [] {
      forall k | 0 <= k < |ms| - 1 ensures ms[1..][k].id != id {
        assert ms[1..][k] == ms[k + 1];
      }
      RemoveByIdAbsent(ms[1..], id);
      assert ms == [ms[0]] + ms[1..];
    }
  }

  /** After the delete no entry has the id, unique ids stay unique, and deleting again changes nothing. */
  lemma RemoveByIdFacts(ms: seq<Message>, id: string)
    ensures !HasId(RemoveById(ms, id), id)
    ensures UniqueIds(ms) ==> UniqueIds(RemoveById(ms, id))
    ensures !HasId(ms, id) ==> RemoveById(ms, id) == ms
    ensures RemoveById(RemoveById(ms, id), id) == RemoveById(ms, id)
  {
    RemoveByIdGone(ms, id);
    if UniqueIds(ms) { RemoveByIdUnique(ms, id); }
    if !HasId(ms, id) { RemoveByIdAbsent(ms, id); }
    RemoveByIdAbsent(RemoveById(ms, id), id);
  }
}
