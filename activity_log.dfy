/**
 * The activity log: one entry per message the terminal logs, and the cap
 * that keeps only the most recent 100 entries in the persisted copy.
 */
module ActivityLog {
  import opened Scanning

  /** One constructor per log message; the time-of-day prefix is not modelled. */
  datatype Event =
    | ProductAdded(name: string, tag: string)
    | TagNotFound(tag: string)
    | SoldTagScanned(tag: string)
    | AddedToCart(name: string, price: real, source: ScanSource)
    | ReaderDetected
    | ManualScanInitiated
    | SerialConnected
    | SerialTagDetected(tag: string)
    | SerialDisconnected
    | KillUnavailable(tag: string)
    | KillCommandSent(tag: string)
    | KillSimulated(tag: string)
    | KillPermanentNotice
    | CartCleared
    | TransactionCompleted(id: string)
    | AmountCharged(amount: real)
    | ProductsSold(count: nat)
    | TagsKilled(count: nat)

  /** How many entries the persisted log keeps. */
  const LogCap: nat := 100

  /** `slice(-n)` for n > 0: the last `n` entries, or all of them when there are fewer. */
  function KeepLast<T>(s: seq<T>, n: nat): seq<T>
  {
    if |s| <= n then s else s[|s| - n..]
  }

  /** The kept entries are the newest min(|s|, n) entries of `s`, in their original order. */
  lemma KeepLastIsNewestSuffix<T>(s: seq<T>, n: nat)
    ensures var r := KeepLast(s, n);
      && |r| == (if |s| <= n then |s| else n)
      && forall i :: 0 <= i < |r| ==> r[i] == s[|s| - |r| + i]
  {
  }

  /**
   * Capping after every append gives the same as capping the whole history:
   * the persisted log is always the last 100 entries of everything logged.
   */
  lemma KeepLastAppend<T>(s: seq<T>, x: T, n: nat)
    ensures KeepLast(KeepLast(s, n) + [x], n) == KeepLast(s + [x], n)
  {
    var k := KeepLast(s, n);
    if |s| + 1 > n {
      var lhs := KeepLast(k + [x], n);
      var rhs := KeepLast(s + [x], n);
      assert |lhs| == |rhs| == n;
      forall i | 0 <= i < n ensures lhs[i] == rhs[i] {
        if i < n - 1 {
          assert lhs[i] == k[|k| + 1 - n + i];
          assert rhs[i] == s[|s| + 1 - n + i];
        }
      }
    }
  }
}
