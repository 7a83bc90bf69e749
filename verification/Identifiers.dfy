/** Name patterns and the owners of the raw stores, shared by the run components (cval/validation/results.py,
    cval/jobs/monitor.py, cval/validation/supervisor.py). */
module Identifiers {

  /** Each raw store and the test that owns it; the validation store belongs to the run. */
  const OWNERS: map<string, string> := map[
    "storage" := "storage", "nccl" := "nccl", "numerical_correctness" := "dltest", "compute_performance" := "dltest",
    "collective_performance" := "dltest", "overlap_performance" := "dltest"]

  predicate IsDigest(s: string) {
    |s| == 71 && "sha256:" <= s && forall i | 7 <= i < |s| :: '0' <= s[i] <= '9' || 'a' <= s[i] <= 'f'
  }

  predicate IsTestId(s: string) {
    && 1 <= |s| <= 63 && 'a' <= s[0] <= 'z'
    && forall i | 1 <= i < |s| :: 'a' <= s[i] <= 'z' || '0' <= s[i] <= '9' || s[i] == '-'
  }

  predicate IsAlphanumeric(c: char) {
    'A' <= c <= 'Z' || 'a' <= c <= 'z' || '0' <= c <= '9'
  }

  /** A safe path segment: run ids and node names. */
  predicate IsSegment(s: string) {
    && 1 <= |s| <= 255 && IsAlphanumeric(s[0])
    && forall i | 1 <= i < |s| :: IsAlphanumeric(s[i]) || s[i] in "._-"
  }
}
