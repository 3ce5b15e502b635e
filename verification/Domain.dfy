/** Values shared by the question store, the requests that run on it and the repositories. */
module Domain {

  datatype Option<+T> = None | Some(value: T)

  /** Application error codes; `Unclassified` is an error that carries none of them,
      such as the plain error of a failed commit. */
  datatype Code =
    | Unauthenticated
    | InvalidArgument
    | NotFound
    | PermissionDenied
    | Internal
    | Unclassified

  datatype Result<+T> = Ok(value: T) | Err(code: Code)

  /** The 128-bit value of a uuid. */
  type Uuid = nat

  /** An id as text. The Go code compares and looks up the text; SQL compares the uuid it
      spells. Every text is one of: the empty text, a text that is no uuid, the lower-case
      hyphenated spelling that Postgres prints, or another spelling that the Go parser accepts
      (upper case, braces, "urn:uuid:", no hyphens), with its text; module `Spelling` has some.
      `castable` says whether `::uuid` reads that other spelling. `Spelling.Proper` says which
      values stand for a text. */
  datatype IdText =
    | Blank
    | Garbage(raw: string)
    | Canonical(id: Uuid)
    | Variant(id: Uuid, castable: bool, text: string)

  predicate GoParses(t: IdText) {
    t.Canonical? || t.Variant?
  }

  /** The SQL cast `t::uuid`. */
  function PgCast(t: IdText): Option<Uuid> {
    match t
    case Canonical(id) => Some(id)
    case Variant(id, true, _) => Some(id)
    case _ => None
  }

  /** The uuids a text can stand for, whichever parser reads it. */
  function Spelled(t: IdText): set<Uuid> {
    if t.Canonical? || t.Variant? then {t.id} else {}
  }

  datatype Draft = Draft(prompt: string, choices: seq<string>, correctOrdinal: int, explanation: string)

  datatype Choice = Choice(id: IdText, text: string, ordinal: int)

  datatype Question = Question(id: IdText, prompt: string, choices: seq<Choice>, explanation: string)

  datatype Detail = Detail(
    id: IdText,
    prompt: string,
    choices: seq<Choice>,
    correctChoice: IdText,
    explanation: string,
    updatedAt: int)

  datatype Attempt = Attempt(
    id: IdText,
    question: IdText,
    prompt: string,
    selected: IdText,
    isCorrect: bool,
    answeredAt: int)

  datatype Stats = Stats(total: nat, correct: nat, accuracy: real)

  function NullIfEmpty(s: string): Option<string> {
    if s == "" then None else Some(s)
  }

  /** `COALESCE(column, '')`. */
  function Coalesce(s: Option<string>): string {
    if s.Some? then s.value else ""
  }

  /** The code points that Go's `strings.TrimSpace` removes at either end. */
  predicate IsGoSpace(c: char) {
    || '\t' <= c <= '\r' || c == ' ' || c == '\U{85}' || c == '\U{A0}' || c == '\U{1680}'
    || '\U{2000}' <= c <= '\U{200A}' || c == '\U{2028}' || c == '\U{2029}' || c == '\U{202F}'
    || c == '\U{205F}' || c == '\U{3000}'
  }

  /** The 25 code points with the Unicode property White_Space. */
  const WhiteSpace: string :=
    "\t\n\U{0B}\U{0C}\r \U{85}\U{A0}\U{1680}" +
    "\U{2000}\U{2001}\U{2002}\U{2003}\U{2004}\U{2005}\U{2006}\U{2007}\U{2008}\U{2009}\U{200A}" +
    "\U{2028}\U{2029}\U{202F}\U{205F}\U{3000}"

  lemma GoSpaceIsWhiteSpace(c: char)
    ensures IsGoSpace(c) <==> c in WhiteSpace
  {
  }

  predicate IsBlank(s: string) {
    forall i | 0 <= i < |s| :: IsGoSpace(s[i])
  }
}
