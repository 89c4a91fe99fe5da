/** The order-lifecycle state machine of `validateStatusTransition`
    (server/controllers/orderController.js): both statuses are upper-cased,
    legacy spellings are folded onto canonical names, and the pair is looked
    up in a fixed table of successors. */
module StatusTransition {
  import opened Text

  /** `statusMap[s] || s` on an upper-cased status: the legacy aliases fold onto
      canonical names; every other string, known or not, is kept. */
  function Fold(u: string): (r: string)
    ensures r != "PENDING" && r != "CHANGEREQUESTED" && r != "UPDATED"
    ensures r == u <==> u != "PENDING" && u != "CHANGEREQUESTED" && u != "UPDATED"
    ensures r != u ==> r == "PLACED" || r == "CHANGED"
  {
    if u == "PENDING" then "PLACED"
    else if u == "CHANGEREQUESTED" || u == "UPDATED" then "CHANGED"
    else u
  }

  /** The normalised status the table is keyed by. */
  function Canonical(s: string): string {
    Fold(Upper(s))
  }

  /** Normalising is idempotent: a normalised status is its own normal form, so
      the validator may be given either. */
  lemma CanonicalIdempotent(s: string)
    ensures Canonical(Canonical(s)) == Canonical(s)
  {
    var u := Upper(s);
    if Fold(u) == u {
      UpperIdempotent(s);
    } else {
      UpperOfUpperCase(Fold(u));
    }
  }

  /** `validTransitions[c] || []`: the allowed successors of a canonical status. */
  function Successors(c: string): seq<string> {
    if c == "PLACED" then ["ACCEPTED", "CANCELLED"]
    else if c == "ACCEPTED" then ["COMPLETED", "CANCELLED", "PREPARING", "READY"]
    else if c == "CHANGED" then ["ACCEPTED", "CANCELLED"]
    else if c == "PREPARING" then ["READY", "COMPLETED", "CANCELLED"]
    else if c == "READY" then ["COMPLETED", "CANCELLED"]
    else []
  }

  /** `validateStatusTransition(current, next)`. */
  function ValidateStatusTransition(current: string, next: string): bool {
    Canonical(next) in Successors(Canonical(current))
  }

  /** The transition table as a relation on canonical names, written out as pairs. */
  const Transitions: set<(string, string)> := {
    ("PLACED", "ACCEPTED"), ("PLACED", "CANCELLED"),
    ("ACCEPTED", "COMPLETED"), ("ACCEPTED", "CANCELLED"),
    ("ACCEPTED", "PREPARING"), ("ACCEPTED", "READY"),
    ("CHANGED", "ACCEPTED"), ("CHANGED", "CANCELLED"),
    ("PREPARING", "READY"), ("PREPARING", "COMPLETED"), ("PREPARING", "CANCELLED"),
    ("READY", "COMPLETED"), ("READY", "CANCELLED")
  }

  /** The statuses with a row in the table. */
  const Known: set<string> :=
    {"PLACED", "ACCEPTED", "CHANGED", "CANCELLED", "COMPLETED", "PREPARING", "READY"}

  /** The validator accepts exactly the pairs of the table, after normalisation. */
  lemma ValidateIsTable(current: string, next: string)
    ensures ValidateStatusTransition(current, next)
        <==> (Canonical(current), Canonical(next)) in Transitions
  {
  }

  /** Normalisation is case-insensitive: upper-casing either argument first
      changes nothing. */
  lemma {:induction false} CaseInsensitive(current: string, next: string)
    ensures ValidateStatusTransition(Upper(current), Upper(next))
        == ValidateStatusTransition(current, next)
  {
    UpperIdempotent(current);
    UpperIdempotent(next);
  }

  /** Canonical statuses are fixed points of normalisation. */
  lemma CanonicalIsFixed()
    ensures Canonical("PLACED") == "PLACED"
    ensures Canonical("ACCEPTED") == "ACCEPTED"
    ensures Canonical("CHANGED") == "CHANGED"
    ensures Canonical("CANCELLED") == "CANCELLED"
    ensures Canonical("COMPLETED") == "COMPLETED"
    ensures Canonical("PREPARING") == "PREPARING"
    ensures Canonical("READY") == "READY"
  {
    UpperOfUpperCase("PLACED");
    UpperOfUpperCase("ACCEPTED");
    UpperOfUpperCase("CHANGED");
    UpperOfUpperCase("CANCELLED");
    UpperOfUpperCase("COMPLETED");
    UpperOfUpperCase("PREPARING");
    UpperOfUpperCase("READY");
  }

  /** Two spellings with the same canonical form validate alike, as source and as target. */
  lemma SameCanonical(a: string, b: string, other: string)
    requires Canonical(a) == Canonical(b)
    ensures ValidateStatusTransition(a, other) == ValidateStatusTransition(b, other)
    ensures ValidateStatusTransition(other, a) == ValidateStatusTransition(other, b)
  {
  }

  /** The legacy spellings of the schema normalise onto the canonical names,
      so they validate exactly like them (by SameCanonical). */
  lemma LegacyAliases()
    ensures Canonical("Pending") == "PLACED"
    ensures Canonical("ChangeRequested") == "CHANGED"
    ensures Canonical("Updated") == "CHANGED"
    ensures Canonical("Accepted") == "ACCEPTED"
    ensures Canonical("Preparing") == "PREPARING"
    ensures Canonical("Ready") == "READY"
    ensures Canonical("Cancelled") == "CANCELLED"
    ensures Canonical("Completed") == "COMPLETED"
  {
    UpperMatches("Pending", "PENDING");
    UpperMatches("ChangeRequested", "CHANGEREQUESTED");
    UpperMatches("Updated", "UPDATED");
    UpperMatches("Accepted", "ACCEPTED");
    UpperMatches("Preparing", "PREPARING");
    UpperMatches("Ready", "READY");
    UpperMatches("Cancelled", "CANCELLED");
    UpperMatches("Completed", "COMPLETED");
  }

  /** CANCELLED and COMPLETED, in any spelling, have no successors. */
  lemma TerminalHasNoSuccessor(current: string, next: string)
    requires Canonical(current) == "CANCELLED" || Canonical(current) == "COMPLETED"
    ensures !ValidateStatusTransition(current, next)
  {
  }

  /** No status may move to itself, nor to another spelling of itself. */
  lemma NoSelfTransition(current: string, next: string)
    requires Canonical(current) == Canonical(next)
    ensures !ValidateStatusTransition(current, next)
  {
  }

  /** A current status outside the table validates nothing. */
  lemma UnknownCurrentRejected(current: string, next: string)
    requires Canonical(current) !in Known
    ensures !ValidateStatusTransition(current, next)
  {
  }

  /** Every accepted target is a known canonical status other than PLACED and CHANGED:
      no request can move an order back to the placed or changed state. */
  lemma AcceptedTargets(current: string, next: string)
    requires ValidateStatusTransition(current, next)
    ensures Canonical(next) in Known
    ensures Canonical(next) != "PLACED" && Canonical(next) != "CHANGED"
  {
  }
}
