/**
 * The frontend's `RoomsManager`: the held room list and current room, the
 * search filter, the decisions a room card and a lesson card make, and the
 * logged-in guard of starting a lesson. Server replies are inputs; rendered
 * HTML is reduced to the values the cards show.
 */
module Rooms {
  import opened Wrappers
  import opened JsText
  import opened Entities
  import Utils
  import Auth

  // ---------------------------------------------------------------------------
  // searchRooms

  /** `topics.some(t => t.toLowerCase().includes(q))`. */
  function AnyTopicIncludes(topics: seq<string>, q: string): (r: bool)
    ensures r <==> exists i :: 0 <= i < |topics| && Includes(Lower(topics[i]), q)
  {
    if topics == [] then false
    else
      assert forall i :: 1 <= i < |topics| ==> topics[i] == topics[1..][i - 1];
      Includes(Lower(topics[0]), q) || AnyTopicIncludes(topics[1..], q)
  }

  /** The filter condition of `searchRooms` for the lower-cased query `q`. */
  predicate RoomMatches(room: Room, q: string) {
    || Includes(Lower(room.name), q)
    || Includes(Lower(room.description), q)
    || AnyTopicIncludes(room.topics, q)
  }

  /** `a` is `b` with some of its elements left out, the rest kept in order. */
  ghost predicate IsSubsequence<T>(a: seq<T>, b: seq<T>)
    decreases |b|
  {
    || a == []
    || (b != [] && ((a[0] == b[0] && IsSubsequence(a[1..], b[1..])) || IsSubsequence(a, b[1..])))
  }

  /**
   * `rooms.filter(room => ...)` for the lower-cased query `q`: the matching
   * rooms, each as often as in `rooms`, in their original order.
   */
  function FilterRooms(rooms: seq<Room>, q: string): (r: seq<Room>)
    ensures IsSubsequence(r, rooms)
    ensures forall x :: multiset(r)[x] == if RoomMatches(x, q) then multiset(rooms)[x] else 0
  {
    if rooms == [] then []
    else
      var rest := FilterRooms(rooms[1..], q);
      assert rooms == [rooms[0]] + rooms[1..];
      if RoomMatches(rooms[0], q) then
        assert ([rooms[0]] + rest)[1..] == rest;
        [rooms[0]] + rest
      else
        rest
  }

  /** The list `searchRooms(query)` shows: all rooms for a blank query, else the matches. */
  function SearchResults(rooms: seq<Room>, query: string): (r: seq<Room>)
    ensures IsSubsequence(r, rooms)
    ensures forall x :: multiset(r)[x] <= multiset(rooms)[x]
  {
    if Trim(query) == [] then
      SubsequenceOfItself(rooms);
      rooms
    else FilterRooms(rooms, Lower(query))
  }

  /** Every list is a subsequence of itself. */
  lemma {:induction false} SubsequenceOfItself<T>(a: seq<T>)
    ensures IsSubsequence(a, a)
    decreases |a|
  {
    if a != [] {
      SubsequenceOfItself(a[1..]);
    }
  }

  /** What the rooms grid shows. */
  datatype Grid = RoomCards(shown: seq<Room>) | NoRoomsAvailable | NoRoomsFound | LoadFailed

  /** `renderRooms()`: a card per room, or the "no rooms available" text. */
  function RenderRooms(rooms: seq<Room>): (r: Grid)
    ensures r.NoRoomsAvailable? <==> rooms == []
    ensures r.RoomCards? ==> r.shown == rooms
    ensures !r.NoRoomsFound? && !r.LoadFailed?
  {
    if rooms == [] then NoRoomsAvailable else RoomCards(rooms)
  }

  /** The grid after `searchRooms(query)`. */
  function SearchView(rooms: seq<Room>, query: string): (r: Grid)
    ensures r.RoomCards? ==> r.shown != [] && IsSubsequence(r.shown, rooms)
    ensures r.NoRoomsFound? ==> Trim(query) != []
    ensures r.NoRoomsAvailable? ==> rooms == []
    ensures !r.LoadFailed?
  {
    SubsequenceOfItself(rooms);
    if Trim(query) == [] then RenderRooms(rooms)
    else
      var found := SearchResults(rooms, query);
      if found == [] then NoRoomsFound else RoomCards(found)
  }

  /** A blank query shows the full list in its original order, whatever was searched before. */
  lemma BlankSearchShowsAllRooms(rooms: seq<Room>, query: string)
    requires AllSpace(query)
    ensures SearchResults(rooms, query) == rooms
    ensures SearchView(rooms, query) == RenderRooms(rooms)
  {
    TrimEmptyIffAllSpace(query);
  }

  /** A non-blank query shows exactly the matching rooms, in order, with their multiplicities. */
  lemma NonBlankSearchFilters(rooms: seq<Room>, query: string, x: Room)
    requires !AllSpace(query)
    ensures IsSubsequence(SearchResults(rooms, query), rooms)
    ensures x in SearchResults(rooms, query) <==> x in rooms && RoomMatches(x, Lower(query))
    ensures SearchView(rooms, query) == (if SearchResults(rooms, query) == [] then NoRoomsFound
                                         else RoomCards(SearchResults(rooms, query)))
  {
    TrimEmptyIffAllSpace(query);
    var r := SearchResults(rooms, query);
    assert x in r <==> multiset(r)[x] > 0;
    assert x in rooms <==> multiset(rooms)[x] > 0;
  }

  /** The letter case of the query does not matter. */
  lemma SearchIgnoresQueryCase(rooms: seq<Room>, q1: string, q2: string)
    requires Lower(q1) == Lower(q2)
    ensures SearchResults(rooms, q1) == SearchResults(rooms, q2)
    ensures SearchView(rooms, q1) == SearchView(rooms, q2)
  {
    TrimEmptyIffAllSpace(q1);
    TrimEmptyIffAllSpace(q2);
    LowerKeepsSpace(q1);
    LowerKeepsSpace(q2);
  }

  // ---------------------------------------------------------------------------
  // createRoomCard

  /** At most this many topics are shown on a room card. */
  const ShownTopics: nat := 4

  /** The tag that counts the topics not shown. */
  function MoreTag(k: nat): string {
    "+" + NatToString(k) + " more"
  }

  /** The topic tags of a room card: the first four topics, then "+k more" for the other k. */
  function TopicTags(topics: seq<string>): (r: seq<string>)
    ensures |topics| <= ShownTopics ==> r == topics
    ensures |topics| > ShownTopics ==> |r| == ShownTopics + 1 && r[ShownTopics] == MoreTag(|topics| - ShownTopics)
    ensures forall i :: 0 <= i < |r| && i < ShownTopics ==> r[i] == topics[i]
  {
    if |topics| > ShownTopics then topics[..ShownTopics] + [MoreTag(|topics| - ShownTopics)] else topics
  }

  /** Reads the count back from a "+k more" tag. */
  function MoreTagCount(tag: string): Option<nat> {
    if tag == [] || tag[0] != '+' then None
    else
      var (run, rest) := SpanDigits(tag[1..], 10);
      if run != [] && rest == " more" then Some(DigitsValue(run, 10)) else None
  }

  /** The number of topics a row of tags stands for. */
  function TopicCount(tags: seq<string>): Option<nat> {
    if |tags| <= ShownTopics then Some(|tags|)
    else if |tags| == ShownTopics + 1 then
      match MoreTagCount(tags[ShownTopics])
      case Some(k) => Some(ShownTopics + k)
      case None => None
    else None
  }

  /** The tags of a card account for every topic of the room. */
  lemma TopicTagsCountAllTopics(topics: seq<string>)
    ensures TopicCount(TopicTags(topics)) == Some(|topics|)
  {
    if |topics| > ShownTopics {
      var k := |topics| - ShownTopics;
      var tag := MoreTag(k);
      assert tag[1..] == NatToString(k) + " more";
      SpanNatToString(k, " more");
    }
  }

  /** The values a room card shows. */
  datatype RoomCard = RoomCard(
    roomClass: string,
    icon: string,
    topicTags: seq<string>,
    difficulty: string,
    duration: string,
    progress: Option<int>)

  /** `createRoomCard(room)` with `user` the held user. */
  function CreateRoomCard(room: Room, user: Option<User>): (r: RoomCard)
    ensures r.roomClass in Utils.RoomClasses.Values
    ensures r.icon != ""
    ensures r.difficulty == DifficultyName(room.difficulty)
    ensures |r.topicTags| <= ShownTopics + 1
    ensures r.progress.Some? ==> r.progress.value > 0
  {
    var progress := Auth.RoomProgress(user, room.id);
    RoomCard(
      Utils.GetRoomClassName(room.name),
      if room.icon.Some? && room.icon.value != "" then room.icon.value else "fa-book",
      TopicTags(room.topics),
      DifficultyName(room.difficulty),
      Utils.FormatDuration(room.estimatedHours * 60),
      if progress > 0 then Some(progress) else None)
  }

  /**
   * The progress block appears exactly when the room's progress is positive,
   * so never for an anonymous visitor.
   */
  lemma RoomCardProgressBlock(room: Room, user: Option<User>)
    ensures CreateRoomCard(room, user).progress.Some? <==> Auth.RoomProgress(user, room.id) > 0
    ensures CreateRoomCard(room, user).progress.Some? ==>
      CreateRoomCard(room, user).progress.value == Auth.RoomProgress(user, room.id)
    ensures user.None? ==> CreateRoomCard(room, user).progress.None?
  {
    if user.None? {
      Auth.RoomProgressWithoutRecord(user, room.id);
    }
  }

  /** A room card's duration reads back as the room's estimated hours. */
  lemma RoomCardDuration(room: Room, user: Option<User>)
    ensures Utils.ParseDuration(CreateRoomCard(room, user).duration) == Some(room.estimatedHours * 60)
  {
    Utils.FormatDurationRoundTrip(room.estimatedHours * 60);
  }

  /** Five topics show as the first four and "+1 more". */
  lemma FiveTopicsShowFourTags(topics: seq<string>)
    requires |topics| == 5
    ensures TopicTags(topics) == topics[..4] + ["+1 more"]
  {
    assert NatToString(1) == "1";
    assert MoreTag(1) == "+1 more";
  }

  /** The "Business Basics" room gets the business class. */
  lemma BusinessBasicsClass()
    ensures Utils.GetRoomClassName("Business Basics") == "business"
  {
    BusinessBasicsKey();
    BusinessEntry();
  }

  /** The lookup key of "Business Basics" is "business". */
  lemma BusinessBasicsKey()
    ensures Utils.RoomKey("Business Basics") == "business"
  {
    assert Lower("Business") == "business";
    Utils.FirstWordOfKey("Business", " Basics");
    assert "Business" + " Basics" == "Business Basics";
  }

  /** "business" is a table key of its own class. */
  lemma BusinessEntry()
    ensures "business" in Utils.RoomClasses && Utils.RoomClasses["business"] == "business"
  {
  }

  /** A room stored with the backend's defaults shows "beginner" and "10h". */
  lemma DefaultedRoomCard(room: Room, user: Option<User>)
    requires room.difficulty == DefaultDifficulty && room.estimatedHours == DefaultEstimatedHours
    ensures CreateRoomCard(room, user).difficulty == "beginner"
    ensures CreateRoomCard(room, user).duration == "10h"
  {
    assert NatToString(10) == "10";
  }

  /** The "Business Basics" room with five topics shows four topic tags and "+1 more". */
  lemma BusinessBasicsCard(room: Room, user: Option<User>)
    requires room.name == "Business Basics"
    requires room.topics == ["meetings", "email", "negotiation", "reports", "presentations"]
    requires room.icon == None
    ensures CreateRoomCard(room, user).topicTags == ["meetings", "email", "negotiation", "reports", "+1 more"]
    ensures CreateRoomCard(room, user).roomClass == "business"
    ensures CreateRoomCard(room, user).icon == "fa-book"
  {
    FiveTopicsShowFourTags(room.topics);
    BusinessBasicsClass();
  }

  // ---------------------------------------------------------------------------
  // createLessonCard

  /** Record `p` lists lesson `lessonId` as completed in room `roomId`. */
  predicate CompletedIn(p: Progress, roomId: string, lessonId: string) {
    p.roomId == roomId && p.completedLessons.Some? && lessonId in p.completedLessons.value
  }

  /** `progress.some(p => p.roomId === roomId && p.completedLessons?.includes(lessonId))`. */
  function AnyCompletes(ps: seq<Progress>, roomId: string, lessonId: string): (r: bool)
    ensures r <==> exists i :: 0 <= i < |ps| && CompletedIn(ps[i], roomId, lessonId)
  {
    if ps == [] then false
    else
      assert forall i :: 1 <= i < |ps| ==> ps[i] == ps[1..][i - 1];
      CompletedIn(ps[0], roomId, lessonId) || AnyCompletes(ps[1..], roomId, lessonId)
  }

  /** The completion test of `createLessonCard`, against the current room. */
  predicate IsCompleted(user: Option<User>, currentRoom: Room, lesson: Lesson) {
    && user.Some?
    && user.value.progress.Some?
    && AnyCompletes(user.value.progress.value, currentRoom.id, lesson.id)
  }

  /** The values a lesson card shows. */
  datatype LessonCard = LessonCard(lessonId: string, duration: string, completedBadge: bool, level: string, button: string)

  /** `createLessonCard(lesson)` with `user` the held user and `currentRoom` the open room. */
  function CreateLessonCard(lesson: Lesson, user: Option<User>, currentRoom: Room): (r: LessonCard)
    ensures r.lessonId == lesson.id
    ensures r.completedBadge ==> user.Some?
    ensures r.button == "Review Lesson" || r.button == "Start Lesson"
    ensures r.completedBadge <==> r.button == "Review Lesson"
  {
    var done := IsCompleted(user, currentRoom, lesson);
    LessonCard(
      lesson.id,
      Utils.FormatDuration(lesson.duration),
      done,
      Utils.Capitalize(DifficultyName(lesson.level)),
      if done then "Review Lesson" else "Start Lesson")
  }

  /**
   * A lesson shows as completed, with a "Review Lesson" button, exactly when
   * someone is logged in and one of their records for the open room lists
   * the lesson; otherwise the button reads "Start Lesson".
   */
  lemma LessonCardCompletion(lesson: Lesson, user: Option<User>, currentRoom: Room)
    ensures var card := CreateLessonCard(lesson, user, currentRoom);
      && (card.completedBadge <==>
           user.Some? && user.value.progress.Some?
           && exists p :: p in user.value.progress.value && CompletedIn(p, currentRoom.id, lesson.id))
      && card.button == (if card.completedBadge then "Review Lesson" else "Start Lesson")
  {
    if user.Some? && user.value.progress.Some? {
      var ps := user.value.progress.value;
      assert forall i :: 0 <= i < |ps| ==> ps[i] in ps;
      assert forall p :: p in ps ==> exists i :: 0 <= i < |ps| && ps[i] == p;
    }
  }

  /** The level label is the capitalized level name. */
  lemma LevelLabels()
    ensures Utils.Capitalize(DifficultyName(Beginner)) == "Beginner"
    ensures Utils.Capitalize(DifficultyName(Intermediate)) == "Intermediate"
    ensures Utils.Capitalize(DifficultyName(Advanced)) == "Advanced"
  {
    LevelLabel(Beginner, "Beginner");
    LevelLabel(Intermediate, "Intermediate");
    LevelLabel(Advanced, "Advanced");
  }

  /** The label of a level is its lower-case name with the first letter upper-cased. */
  lemma LevelLabel(d: Difficulty, shown: string)
    requires shown == [UpperChar(DifficultyName(d)[0])] + DifficultyName(d)[1..]
    ensures Utils.Capitalize(DifficultyName(d)) == shown
  {
    assert Utils.LowerWord(DifficultyName(d));
    CapitalizeLowerWord(DifficultyName(d));
  }

  /** A lower-case word is capitalized by upper-casing its first letter alone. */
  lemma CapitalizeLowerWord(w: string)
    requires w != [] && Utils.LowerWord(w)
    ensures Utils.Capitalize(w) == [UpperChar(w[0])] + w[1..]
  {
  }

  /** The cards of a room's lessons, in the order the lessons arrive. */
  function LessonCards(lessons: seq<Lesson>, user: Option<User>, currentRoom: Room): (r: seq<LessonCard>)
    ensures |r| == |lessons|
    ensures forall i :: 0 <= i < |lessons| ==> r[i] == CreateLessonCard(lessons[i], user, currentRoom)
  {
    seq(|lessons|, i requires 0 <= i < |lessons| => CreateLessonCard(lessons[i], user, currentRoom))
  }

  // ---------------------------------------------------------------------------
  // The manager object

  /** The rooms endpoint's reply. */
  datatype RoomsResponse = RoomsLoaded(data: seq<Room>) | RoomsNotLoaded(message: string)

  /** The room-lessons endpoint's reply. */
  datatype LessonsResponse = LessonsLoaded(room: Room, lessons: seq<Lesson>) | LessonsNotLoaded(message: string)

  /** The room modal after `openRoomModal`: the room with its lesson cards, or closed after a failure. */
  datatype RoomModal = LessonsShown(room: Room, lessons: seq<LessonCard>) | ModalClosed

  /** Requests `startLesson` sends to the backend. */
  datatype Request = CompleteLesson(lessonId: string) | GetCurrentUser

  /**
   * How `startLesson` ends: the login modal opened, a failure reported, or
   * the room modal reopened for the held current room.
   */
  datatype StartOutcome = LoginModalOpened | StartFailed | ReopenRoom(room: Option<Room>)

  class RoomsManager {
    var rooms: seq<Room>
    var currentRoom: Option<Room>

    constructor ()
      ensures rooms == [] && currentRoom == None
    {
      rooms := [];
      currentRoom := None;
    }

    /** `loadRooms()`: the list is replaced only by a successful reply. */
    method LoadRooms(response: RoomsResponse) returns (grid: Grid)
      modifies this
      ensures rooms == (if response.RoomsLoaded? then response.data else old(rooms))
      ensures currentRoom == old(currentRoom)
      ensures grid == (if response.RoomsLoaded? then RenderRooms(rooms) else LoadFailed)
    {
      if response.RoomsLoaded? {
        rooms := response.data;
        grid := RenderRooms(rooms);
      } else {
        grid := LoadFailed;
      }
    }

    /**
     * `openRoomModal(room)`: `response` is the room-lessons endpoint's reply
     * for `room.id`; the current room is set only by a successful reply, and
     * to the room the reply carries.
     */
    method OpenRoomModal(room: Room, response: LessonsResponse, auth: Auth.AuthManager) returns (modal: RoomModal)
      modifies this
      ensures rooms == old(rooms)
      ensures response.LessonsLoaded? ==>
        && currentRoom == Some(response.room)
        && modal == LessonsShown(response.room, LessonCards(response.lessons, auth.currentUser, response.room))
      ensures response.LessonsNotLoaded? ==> currentRoom == old(currentRoom) && modal == ModalClosed
    {
      if response.LessonsLoaded? {
        currentRoom := Some(response.room);
        modal := LessonsShown(response.room, LessonCards(response.lessons, auth.currentUser, response.room));
      } else {
        modal := ModalClosed;
      }
    }

    /** `searchRooms(query)`: recomputes the grid and leaves the held list alone. */
    method SearchRooms(query: string) returns (grid: Grid)
      ensures grid == SearchView(rooms, query)
      ensures Trim(query) == [] ==> grid == RenderRooms(rooms)
    {
      if Trim(query) == [] {
        return RenderRooms(rooms);
      }
      var filtered := FilterRooms(rooms, Lower(query));
      grid := if filtered == [] then NoRoomsFound else RoomCards(filtered);
    }

    /**
     * `startLesson(lessonId)`. `completed` says whether the completion request
     * went through and `me` is the user the current-user request returned,
     * `None` when that request failed. Logged out, nothing is sent and the
     * login modal opens; otherwise the completion is sent, then the user is
     * refetched and saved, and the room modal reopens. A failed request ends
     * the attempt with the session as it was.
     */
    method StartLesson(lessonId: string, auth: Auth.AuthManager, completed: bool, me: Option<User>)
      returns (sent: seq<Request>, outcome: StartOutcome)
      modifies auth
      ensures !old(auth.IsLoggedIn()) ==>
        sent == [] && outcome == LoginModalOpened && auth.State() == old(auth.State())
      ensures old(auth.IsLoggedIn()) && !completed ==>
        sent == [CompleteLesson(lessonId)] && outcome == StartFailed && auth.State() == old(auth.State())
      ensures old(auth.IsLoggedIn()) && completed && me.None? ==>
        && sent == [CompleteLesson(lessonId), GetCurrentUser]
        && outcome == StartFailed && auth.State() == old(auth.State())
      ensures old(auth.IsLoggedIn()) && completed && me.Some? ==>
        && sent == [CompleteLesson(lessonId), GetCurrentUser]
        && outcome == ReopenRoom(currentRoom)
        && auth.State() == Auth.Saved(old(auth.State()), me.value)
    {
      if !auth.IsLoggedIn() {
        return [], LoginModalOpened;
      }
      sent := [CompleteLesson(lessonId)];
      if !completed {
        return sent, StartFailed;
      }
      sent := sent + [GetCurrentUser];
      if me.None? {
        return sent, StartFailed;
      }
      auth.SaveUser(me.value);
      outcome := ReopenRoom(currentRoom);
    }
  }
}
