/**
 * The records the frontend receives from the backend and keeps in the
 * session: rooms, lessons, users and their per-room progress.
 */
module Entities {
  import opened Wrappers

  /** A room's difficulty and a lesson's level share the same three values. */
  datatype Difficulty = Beginner | Intermediate | Advanced

  /** The stored spelling of a difficulty. */
  function DifficultyName(d: Difficulty): string {
    match d
    case Beginner => "beginner"
    case Intermediate => "intermediate"
    case Advanced => "advanced"
  }

  /** What the backend fills in for a room created without these fields. */
  const DefaultDifficulty: Difficulty := Beginner
  const DefaultEstimatedHours: nat := 10

  /** A topic category; read-only to the client. */
  datatype Room = Room(
    id: string,
    name: string,
    description: string,
    color: string,
    topics: seq<string>,
    icon: Option<string>,
    difficulty: Difficulty,
    estimatedHours: nat)

  /** A content unit of a room; `duration` is in minutes. */
  datatype Lesson = Lesson(
    id: string,
    title: string,
    description: string,
    duration: nat,
    level: Difficulty,
    roomId: string,
    order: int)

  /** A user's progress in one room: a percentage and the lessons completed, when present. */
  datatype Progress = Progress(roomId: string, progress: int, completedLessons: Option<seq<string>>)

  /** The signed-in user as the auth endpoints return it. */
  datatype User = User(name: string, email: string, token: string, progress: Option<seq<Progress>>)
}
