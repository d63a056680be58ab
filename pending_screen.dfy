/** PendingScreen.kt: the French label shown for a delivery status, and the
    rule that enables the bulk "Envoyer tout" button. */
module PendingScreen {
  import opened Common
  import opened Text

  const LABEL_SENT: string := "ENVOYÉ"
  const LABEL_FAILED: string := "ÉCHOUÉ"
  const LABEL_PENDING: string := "EN ATTENTE"

  /** `mapStatusToFrench`: the status is compared upper-cased; a null status
      counts as pending; an unknown status is shown upper-cased. */
  function MapStatusToFrench(status: Option<string>): (r: string)
    ensures status.None? ==> r == LABEL_PENDING
    ensures status.Some? && ToUpper(status.value) == "SENT" ==> r == LABEL_SENT
    ensures status.Some? && ToUpper(status.value) == "FAILED" ==> r == LABEL_FAILED
    ensures status.Some? && ToUpper(status.value) == "PENDING" ==> r == LABEL_PENDING
    ensures status.Some? && ToUpper(status.value) !in {"SENT", "FAILED", "PENDING"} ==> r == ToUpper(status.value)
  {
    match status
    case None => LABEL_PENDING
    case Some(s) =>
      var upper := ToUpper(s);
      if upper == "SENT" then LABEL_SENT
      else if upper == "FAILED" then LABEL_FAILED
      else if upper == "PENDING" then LABEL_PENDING
      else upper
  }

  /** Upper-casing twice is upper-casing once. */
  lemma UpperIdempotent(s: string)
    ensures ToUpper(ToUpper(s)) == ToUpper(s)
  {
  }

  /** Lower-casing first does not change what upper-casing gives. */
  lemma UpperIgnoresCase(a: string, b: string)
    requires ToLower(a) == ToLower(b)
    ensures ToUpper(a) == ToUpper(b)
  {
    forall i | 0 <= i < |a| ensures UpperChar(a[i]) == UpperChar(b[i]) {
      assert LowerChar(a[i]) == ToLower(a)[i] == ToLower(b)[i] == LowerChar(b[i]);
    }
  }

  /** Two statuses that differ only in letter case get the same label. */
  lemma StatusLabelIgnoresCase(a: string, b: string)
    requires ToLower(a) == ToLower(b)
    ensures MapStatusToFrench(Some(a)) == MapStatusToFrench(Some(b))
  {
    UpperIgnoresCase(a, b);
  }

  /** Every label is already upper-case. */
  lemma StatusLabelIsUpperCase(status: Option<string>)
    ensures ToUpper(MapStatusToFrench(status)) == MapStatusToFrench(status)
  {
    assert ToUpper(LABEL_SENT) == LABEL_SENT;
    assert ToUpper(LABEL_FAILED) == LABEL_FAILED;
    assert ToUpper(LABEL_PENDING) == LABEL_PENDING;
    if status.Some? {
      UpperIdempotent(status.value);
    }
  }

  /** A status shows as "EN ATTENTE" exactly when it is null or "pending" in
      some letter case. */
  lemma PendingLabelIffPending(status: Option<string>)
    ensures MapStatusToFrench(status) == LABEL_PENDING <==>
              status.None? || ToUpper(status.value) == "PENDING" || ToUpper(status.value) == LABEL_PENDING
  {
    assert LABEL_SENT != LABEL_PENDING && LABEL_FAILED != LABEL_PENDING;
  }

  /** The bulk button's `onClick`: it starts a bulk sync unless one is
      already running. */
  function BulkClickStartsSync(syncing: bool): (starts: bool)
    ensures syncing ==> !starts
  {
    !syncing
  }

  /** The bulk button's `enabled` flag: enabled exactly when no sync runs
      and something is pending, and a click on the enabled button starts a
      sync. */
  function BulkSyncEnabled(syncing: bool, pendingCount: Int32): (enabled: bool)
    ensures enabled ==> BulkClickStartsSync(syncing)
    ensures syncing ==> !enabled
    ensures pendingCount <= 0 ==> !enabled
    ensures !syncing && pendingCount > 0 ==> enabled
  {
    !syncing && pendingCount > 0
  }
}
