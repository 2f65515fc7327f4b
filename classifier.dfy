/**
 * What the booking engine can see when an attempt throws, and the predicate
 * that decides whether such an error is a retryable optimistic-locking
 * conflict (service/slot.booking.js, SlotBookingError and
 * isVersionConflictError).
 */
module Classifier {

  /** The three business-rule rejections a reservation attempt raises itself. */
  datatype BusinessCode = SlotNotFound | SlotFull | DuplicateBooking

  /**
   * An error thrown inside a reservation attempt: either a SlotBookingError
   * raised by the engine, or any other error the storage layer throws,
   * seen through its `code` and `message` (a missing code is the empty string).
   */
  datatype Thrown =
    | Business(kind: BusinessCode)
    | Storage(code: string, message: string)

  const NotFoundMessage: string := "Slot not found"
  const FullMessage: string := "Slot is fully booked"
  const DuplicateMessage: string := "User already" + " has a booking" + " for this slot"

  /** Prisma's error code for an update whose `where` matched no row. */
  const RecordNotFoundCode: string := "P2025"
  const RecordNotFoundText: string := "Record to update not found"
  const VersionText: string := "version"

  /** The error a version-guarded update that matches no row throws. */
  const StaleGuardError: Thrown :=
    Storage(RecordNotFoundCode, "An operation failed because it depends on one or more records that were required but not found. Record to update not found.")

  /** The error a violated (slotId, userId) unique constraint throws. */
  const UniqueViolationError: Thrown :=
    Storage("P2002", "Unique constraint failed" + " on the fields: " + "(slotId,userId)")

  function CodeName(k: BusinessCode): string {
    match k
    case SlotNotFound => "SLOT_NOT_FOUND"
    case SlotFull => "SLOT_FULL"
    case DuplicateBooking => "DUPLICATE_BOOKING"
  }

  function BusinessMessage(k: BusinessCode): string {
    match k
    case SlotNotFound => NotFoundMessage
    case SlotFull => FullMessage
    case DuplicateBooking => DuplicateMessage
  }

  function Code(t: Thrown): string {
    match t
    case Business(k) => CodeName(k)
    case Storage(c, _) => c
  }

  function Message(t: Thrown): string {
    match t
    case Business(k) => BusinessMessage(k)
    case Storage(_, m) => m
  }

  /** Reference meaning of JavaScript's `s.includes(sub)`: `sub` occurs at some offset of `s`. */
  ghost predicate OccursIn(sub: string, s: string) {
    exists i :: OccursAt(sub, s, i)
  }

  ghost predicate OccursAt(sub: string, s: string, i: int) {
    0 <= i <= |s| - |sub| && s[i..i + |sub|] == sub
  }

  /** `s.includes(sub)`, computed by trying every offset from the left. */
  function Contains(s: string, sub: string): bool
    decreases |s|
  {
    if |sub| > |s| then false
    else if s[..|sub|] == sub then true
    else Contains(s[1..], sub)
  }

  lemma {:induction false} ContainsMeansOccurs(s: string, sub: string)
    ensures Contains(s, sub) <==> OccursIn(sub, s)
    decreases |s|
  {
    if |sub| > |s| {
    } else if s[..|sub|] == sub {
      assert OccursAt(sub, s, 0);
    } else {
      ContainsMeansOccurs(s[1..], sub);
      if Contains(s[1..], sub) {
        var i :| OccursAt(sub, s[1..], i);
        SliceOfTail(s, i, |sub|);
        assert OccursAt(sub, s, i + 1);
      }
      if OccursIn(sub, s) {
        var i :| OccursAt(sub, s, i);
        assert i != 0;
        SliceOfTail(s, i - 1, |sub|);
        assert OccursAt(sub, s[1..], i - 1);
      }
    }
  }

  lemma SliceOfTail(s: string, i: nat, n: nat)
    requires 1 + i + n <= |s|
    ensures s[1..][i..i + n] == s[i + 1..i + 1 + n]
  {
    assert s[1..][i..i + n] == s[i + 1..i + 1 + n];
  }

  /** A non-empty `sub` cannot occur in a string that lacks its first character. */
  lemma {:induction false} MissingFirstChar(s: string, sub: string)
    requires |sub| > 0 && sub[0] !in s
    ensures !Contains(s, sub)
    decreases |s|
  {
    if |sub| <= |s| {
      assert s[0] != sub[0];
      assert s[..|sub|] != sub;
      MissingFirstChar(s[1..], sub);
    }
  }

  /**
   * isVersionConflictError: the error is a retryable conflict when its code
   * is P2025 or its message mentions a missing record to update or "version".
   */
  predicate IsVersionConflictError(t: Thrown) {
    Code(t) == RecordNotFoundCode
    || Contains(Message(t), RecordNotFoundText)
    || Contains(Message(t), VersionText)
  }

  /** How the catch block of an attempt treats an error, in its order of tests. */
  datatype Verdict = Conflict | Rejected(kind: BusinessCode) | Unexpected

  function Classify(t: Thrown): (v: Verdict)
    ensures v == Conflict <==> IsVersionConflictError(t)
    ensures v.Rejected? ==> t.Business? && v.kind == t.kind
    ensures v == Unexpected <==> t.Storage? && !IsVersionConflictError(t)
  {
    if IsVersionConflictError(t) then Conflict
    else if t.Business? then Rejected(t.kind)
    else Unexpected
  }

  /** None of the three business messages contains "Record to update not found" or "version". */
  lemma BusinessIsNeverConflict(k: BusinessCode)
    ensures !IsVersionConflictError(Business(k))
    ensures Classify(Business(k)) == Rejected(k)
  {
    CodeNameLetter(k);
    BusinessMessageLetters(k);
    NoConflictText(Business(k));
  }

  /** An error whose code is not P2025 and whose message has no 'R' and no 'v' is no conflict. */
  lemma NoConflictText(t: Thrown)
    requires Code(t) != RecordNotFoundCode
    requires 'R' !in Message(t) && 'v' !in Message(t)
    ensures !IsVersionConflictError(t)
  {
    CleanMessage(Message(t));
  }

  /** No business code starts with the 'P' of Prisma's codes. */
  lemma CodeNameLetter(k: BusinessCode)
    ensures CodeName(k) != RecordNotFoundCode
  {
    match k
    case SlotNotFound => assert CodeName(k)[0] == 'S' != RecordNotFoundCode[0];
    case SlotFull => assert CodeName(k)[0] == 'S' != RecordNotFoundCode[0];
    case DuplicateBooking => assert CodeName(k)[0] == 'D' != RecordNotFoundCode[0];
  }

  lemma BusinessMessageLetters(k: BusinessCode)
    ensures 'R' !in BusinessMessage(k) && 'v' !in BusinessMessage(k)
  {
    match k
    case SlotNotFound =>
      assert 'R' !in NotFoundMessage && 'v' !in NotFoundMessage;
    case SlotFull =>
      assert 'R' !in FullMessage && 'v' !in FullMessage;
    case DuplicateBooking =>
      assert 'R' !in "User already" && 'v' !in "User already";
      assert 'R' !in " has a booking" && 'v' !in " has a booking";
      assert 'R' !in " for this slot" && 'v' !in " for this slot";
  }

  /** A message without an 'R' or a 'v' mentions neither conflict text. */
  lemma CleanMessage(m: string)
    requires 'R' !in m && 'v' !in m
    ensures !Contains(m, RecordNotFoundText) && !Contains(m, VersionText)
  {
    MissingFirstChar(m, RecordNotFoundText);
    MissingFirstChar(m, VersionText);
  }

  /** Storage errors: a conflict exactly when the predicate says so, otherwise Unexpected. */
  lemma StorageVerdict(code: string, message: string)
    ensures Classify(Storage(code, message)) ==
      if code == RecordNotFoundCode || OccursIn(RecordNotFoundText, message) || OccursIn(VersionText, message)
      then Conflict else Unexpected
  {
    ContainsMeansOccurs(message, RecordNotFoundText);
    ContainsMeansOccurs(message, VersionText);
  }

  /** The error of a stale version guard is retried. */
  lemma StaleGuardIsConflict()
    ensures Classify(StaleGuardError) == Conflict
  {
  }

  /** A clash on the (slotId, userId) unique key is not retried: it is Unexpected. */
  lemma UniqueViolationIsUnexpected()
    ensures Classify(UniqueViolationError) == Unexpected
  {
    UniqueMessageLetters();
    CleanMessage(Message(UniqueViolationError));
  }

  lemma UniqueMessageLetters()
    ensures 'R' !in Message(UniqueViolationError) && 'v' !in Message(UniqueViolationError)
  {
    assert 'R' !in "Unique constraint failed" && 'v' !in "Unique constraint failed";
    assert 'R' !in " on the fields: " && 'v' !in " on the fields: ";
    assert 'R' !in "(slotId,userId)" && 'v' !in "(slotId,userId)";
  }
}
