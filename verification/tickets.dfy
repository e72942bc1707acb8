/**
 * The text of a version-4 UUID as `str(uuid.uuid4())` prints it, and the
 * shape of the ticket numbers cut from it. The random UUID itself is an
 * input of the model.
 */
module Tickets {

  predicate IsLowerHex(c: char)
  {
    '0' <= c <= '9' || 'a' <= c <= 'f'
  }

  predicate IsUpperHex(c: char)
  {
    '0' <= c <= '9' || 'A' <= c <= 'F'
  }

  predicate IsDashPosition(i: int)
  {
    i == 8 || i == 13 || i == 18 || i == 23
  }

  /** 32 lower-case hex digits in groups 8-4-4-4-12, joined by dashes. */
  predicate IsCanonicalUuid(u: string)
  {
    && |u| == 36
    && forall i :: 0 <= i < 36 ==> if IsDashPosition(i) then u[i] == '-' else IsLowerHex(u[i])
  }

  type UuidText = u: string | IsCanonicalUuid(u)
    witness "00000000-0000-0000-0000-000000000000"

  /** Eight upper-case hex digits. */
  predicate IsTicketId(t: string)
  {
    |t| == 8 && forall i :: 0 <= i < 8 ==> IsUpperHex(t[i])
  }
}
