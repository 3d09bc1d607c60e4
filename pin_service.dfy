/** The `verification_pins` table: one row per pin sent, never removed. */
module PinService {
  import opened Wrappers
  import opened Models
  import opened Listing

  predicate Matches(p: VerificationPin, email: string, pin: string) {
    p.email == email && p.pin == pin
  }

  /** `get_verification_pin`: the first row whose email and pin both match; expiry is not
      looked at. */
  function GetVerificationPin(rows: seq<VerificationPin>, email: string, pin: string): (r: Option<VerificationPin>)
    ensures r.Some? ==> r.value in rows && r.value.email == email && r.value.pin == pin
    ensures r.None? <==> forall k :: 0 <= k < |rows| ==> !Matches(rows[k], email, pin)
  {
    FirstWhere(rows, (p: VerificationPin) => Matches(p, email, pin))
  }

  /** An expired pin is still found: the lookup ignores `expires_at`. */
  lemma ExpiredPinFound(rows: seq<VerificationPin>, k: nat, now: int)
    requires k < |rows| && rows[k].expiresAt < now
    ensures GetVerificationPin(rows, rows[k].email, rows[k].pin).Some?
  {
    assert Matches(rows[k], rows[k].email, rows[k].pin);
  }

  /** A pin just created is found by its email and pin, whatever the table held before. */
  lemma {:induction false} CreatedPinFound(rows: seq<VerificationPin>, p: VerificationPin)
    ensures GetVerificationPin(rows + [p], p.email, p.pin).Some?
  {
    assert (rows + [p])[|rows|] == p;
    assert Matches((rows + [p])[|rows|], p.email, p.pin);
  }

  class PinTable {
    var rows: seq<VerificationPin>

    constructor (rows: seq<VerificationPin>)
      ensures this.rows == rows
    {
      this.rows := rows;
    }

    /** `create_verification_pin`: appends the row (the database supplies id and time)
        and returns it. */
    method CreateVerificationPin(email: string, pin: string, expiresAt: int, newId: string, now: int)
      returns (row: VerificationPin)
      modifies this
      ensures row == VerificationPin(newId, email, pin, expiresAt, now)
      ensures rows == old(rows) + [row]
    {
      row := VerificationPin(newId, email, pin, expiresAt, now);
      rows := rows + [row];
    }
  }
}
