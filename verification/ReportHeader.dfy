/** The column names of the client report (deliverables.ts): words of ASCII letters. */
module ReportHeader {
  const HEADER := [
    "siteName", "siteUrl", "newCriticalFindings", "significantTrafficDrops", "completedTasks", "unresolvedRisks",
    "overdueTasks", "failedOperations", "newRegressions", "openRegressions", "improvedOutcomes", "declinedOutcomes",
    "stableOutcomes", "awaitingFollowup", "verifiedImprovedTasks", "verifiedStableTasks", "verifiedDeclinedTasks",
    "inconclusiveTasks", "awaitingTaskVerification"]

  predicate IsLetter(c: char) {
    'a' <= c <= 'z' || 'A' <= c <= 'Z'
  }

  predicate IsWord(s: string) {
    forall n :: 0 <= n < |s| ==> IsLetter(s[n])
  }

  lemma SiteNames()
    ensures IsWord("siteName") && IsWord("siteUrl")
  {
  }

  lemma WorkNames()
    ensures IsWord("newCriticalFindings") && IsWord("significantTrafficDrops")
    ensures IsWord("completedTasks") && IsWord("unresolvedRisks")
  {
  }

  lemma RiskNames()
    ensures IsWord("overdueTasks") && IsWord("failedOperations")
    ensures IsWord("newRegressions") && IsWord("openRegressions")
  {
  }

  lemma OutcomeNames()
    ensures IsWord("improvedOutcomes") && IsWord("declinedOutcomes")
    ensures IsWord("stableOutcomes") && IsWord("awaitingFollowup")
  {
  }

  lemma VerifiedNames()
    ensures IsWord("verifiedImprovedTasks") && IsWord("verifiedStableTasks") && IsWord("verifiedDeclinedTasks")
  {
  }

  lemma PendingNames()
    ensures IsWord("inconclusiveTasks") && IsWord("awaitingTaskVerification")
  {
  }

  lemma HeaderIsWords()
    ensures HEADER != [] && forall n :: 0 <= n < |HEADER| ==> IsWord(HEADER[n])
  {
    SiteNames();
    WorkNames();
    RiskNames();
    OutcomeNames();
    VerifiedNames();
    PendingNames();
  }

  /** Where the names stand. */
  lemma NamesInOrder()
    ensures |HEADER| == 19
    ensures HEADER[0] == "siteName"
    ensures HEADER[1] == "siteUrl"
    ensures HEADER[2] == "newCriticalFindings"
    ensures HEADER[3] == "significantTrafficDrops"
    ensures HEADER[4] == "completedTasks"
    ensures HEADER[5] == "unresolvedRisks"
    ensures HEADER[6] == "overdueTasks"
    ensures HEADER[7] == "failedOperations"
    ensures HEADER[8] == "newRegressions"
    ensures HEADER[9] == "openRegressions"
    ensures HEADER[10] == "improvedOutcomes"
    ensures HEADER[11] == "declinedOutcomes"
    ensures HEADER[12] == "stableOutcomes"
    ensures HEADER[13] == "awaitingFollowup"
    ensures HEADER[14] == "verifiedImprovedTasks"
    ensures HEADER[15] == "verifiedStableTasks"
    ensures HEADER[16] == "verifiedDeclinedTasks"
    ensures HEADER[17] == "inconclusiveTasks"
    ensures HEADER[18] == "awaitingTaskVerification"
  {
  }
}
