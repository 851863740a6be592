/** The configuration and the answer of GitHub that the sample runs share. */
module Samples {
  import opened Base
  import opened Tables
  import opened Broker
  import Emails

  /** A digest that tells tokens of different length apart, which is all the samples need. */
  const SHA: string -> Digest := s => |s|

  const ANSWER := TokenWithEmails([GitHubEmail("a", true, true)])

  function ConfigWith(accessTTL: int, refreshTTL: int): Config {
    Config("", SHA, c => c, "a", accessTTL, refreshTTL)
  }

  lemma NamedOnTheList(accessTTL: int, refreshTTL: int)
    ensures IsEmailAllowed(ConfigWith(accessTTL, refreshTTL), "a")
  {
    var lower, fields := ConfigWith(accessTTL, refreshTTL).lower, Emails.Split("a");
    assert "a"[1..] == "" && "a" == ['a'] + "";
    assert fields == ["a"];
    assert Emails.IsEntryFor(lower, fields[0], "a");
    assert Emails.NamedIn(lower, "a", "a");
    Emails.AllowListMeansNamed(lower, "a", "a");
  }
}
