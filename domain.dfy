/**
 * The records the chat client exchanges with its API (types/index.d.ts),
 * restricted to the fields the synchronisation logic reads or writes.
 */
module Domain {
  import opened Wrappers

  /**
   * A valid JavaScript `Date` as seen on the device: its epoch milliseconds,
   * its local calendar fields (`getFullYear`, the 0-based `getMonth`,
   * `getDate`) and `new Date(year, month, date).getTime()`, the local midnight
   * that starts its day.  Time zone rules are the device's and are not modelled.
   */
  datatype Clock = Clock(ms: int, year: int, month: int, date: int, midnightMs: int)

  /** Both dates fall on the same local calendar day. */
  predicate SameDay(a: Clock, b: Clock) {
    a.year == b.year && a.month == b.month && a.date == b.date
  }

  /** A date string as the API sends it, with what `new Date(raw)` makes of it (None: an Invalid Date). */
  datatype Stamp = Stamp(raw: string, parsed: Option<Clock>)

  datatype AvatarSet = AvatarSet(original: string, medium: string, small: string)

  datatype User = User(id: string, name: string, tag: string, avatar: Option<AvatarSet>)

  datatype Attachment = Attachment(id: string, originalUrl: string)

  /** `content` is None for an attachment-only message (`null` in the payload). */
  datatype Message = Message(
    id: string,
    content: Option<string>,
    senderId: string,
    conversationId: string,
    editedAt: Option<string>,
    createdAt: Stamp,
    attachment: Option<Attachment>)

  datatype Conversation = Conversation(
    id: string,
    userTag: Option<string>,
    title: string,
    lastMessage: Option<Message>,
    hasUnread: bool,
    avatar: Option<AvatarSet>,
    participants: seq<User>,
    updatedAt: Stamp)

  /** `meta` of a page of messages; `current_page`/`last_page` may be missing. */
  datatype PageMeta = PageMeta(currentPage: Option<int>, lastPage: Option<int>, perPage: int, total: int)

  /** `PaginatedMessages`: one page of messages, newest first, and its cursor. */
  datatype Page = Page(data: seq<Message>, meta: Option<PageMeta>)

  /** Participant `i` is the first one whose id is not `self`. */
  ghost predicate FirstOtherAt(ps: seq<User>, self: string, i: int) {
    0 <= i < |ps| && ps[i].id != self && forall j :: 0 <= j < i ==> ps[j].id == self
  }

  /** `participants.find(p => String(p.id) !== self)`: the first participant whose id is not `self`. */
  function FirstOtherThan(ps: seq<User>, self: string): (r: Option<User>)
    ensures r.None? <==> forall i :: 0 <= i < |ps| ==> ps[i].id == self
    ensures r.Some? ==> exists i :: FirstOtherAt(ps, self, i) && ps[i] == r.value
  {
    if ps == [] then None
    else if ps[0].id != self then (assert FirstOtherAt(ps, self, 0); Some(ps[0]))
    else
      var r := FirstOtherThan(ps[1..], self);
      assert r.Some? ==> exists i :: FirstOtherAt(ps, self, i) && ps[i] == r.value by {
        if r.Some? {
          var i :| FirstOtherAt(ps[1..], self, i) && ps[1..][i] == r.value;
          forall j | 0 <= j < i + 1 ensures ps[j].id == self {
            if j > 0 { assert ps[j] == ps[1..][j - 1]; }
          }
          assert FirstOtherAt(ps, self, i + 1);
        }
      }
      assert r.None? ==> forall i :: 0 <= i < |ps| ==> ps[i].id == self by {
        if r.None? {
          forall i | 0 <= i < |ps| ensures ps[i].id == self {
            if i > 0 { assert ps[i] == ps[1..][i - 1]; }
          }
        }
      }
      r
  }
}
