/** The import configuration (`import-conf.json`) shared by the experiment and the
    model importers, and the archived-user rename both of them apply. */
module ImportConf {
  import opened Common

  /** The three optional keys the importers look up; `None` is a missing key. */
  datatype Conf = Conf(
    archivedUsers: Option<seq<string>>,                 // "archived_users"
    missingRuns: Option<map<string, seq<string>>>,      // "missing_runs": model name -> run IDs
    missingExperiments: Option<seq<string>>)            // "missing_experiments": experiment names

  const UsersPrefix: string := "/Users/"
  const ArchivePrefix: string := "/Archive/"

  /** The search loop over the configured users: does some user's home prefix begin `name`? */
  function UserPrefixMatches(name: string, users: seq<string>): bool {
    if users == [] then false
    else if StartsWith(name, UsersPrefix + users[0]) then true
    else UserPrefixMatches(name, users[1..])
  }

  /** The search succeeds exactly when some configured user's home prefix begins the name. */
  lemma {:induction false} UserPrefixMatchesSpec(name: string, users: seq<string>)
    ensures UserPrefixMatches(name, users) <==> exists u :: u in users && StartsWith(name, UsersPrefix + u)
  {
    if users != [] {
      UserPrefixMatchesSpec(name, users[1..]);
      assert users == [users[0]] + users[1..];
    }
  }

  /** `replace_if_user_is_archived`: an experiment owned by an archived user moves from
      `/Users/` to `/Archive/`; every other name, and every name when no archived users
      are configured, is returned unchanged. */
  function ReplaceIfUserIsArchived(conf: Conf, expName: string): string {
    if conf.archivedUsers.None? then expName
    else if UserPrefixMatches(expName, conf.archivedUsers.value) then Replace(expName, UsersPrefix, ArchivePrefix)
    else expName
  }

  /** The name changes only for an owner among the archived users, and then by the
      `/Users/` to `/Archive/` replacement. */
  lemma ReplaceIfUserIsArchivedCases(conf: Conf, expName: string)
    ensures conf.archivedUsers.None? ==> ReplaceIfUserIsArchived(conf, expName) == expName
    ensures conf.archivedUsers.Some? && (exists u :: u in conf.archivedUsers.value && StartsWith(expName, UsersPrefix + u)) ==>
              ReplaceIfUserIsArchived(conf, expName) == Replace(expName, UsersPrefix, ArchivePrefix)
    ensures conf.archivedUsers.Some? && !(exists u :: u in conf.archivedUsers.value && StartsWith(expName, UsersPrefix + u)) ==>
              ReplaceIfUserIsArchived(conf, expName) == expName
  {
    if conf.archivedUsers.Some? {
      UserPrefixMatchesSpec(expName, conf.archivedUsers.value);
    }
  }

  /** A renamed experiment lives under `/Archive/` and keeps everything after its
      leading `/Users/`, with later `/Users/` occurrences replaced as well. */
  lemma ArchivedNameMovesToArchive(conf: Conf, expName: string, user: string)
    requires conf.archivedUsers.Some? && user in conf.archivedUsers.value
    requires StartsWith(expName, UsersPrefix + user)
    ensures ReplaceIfUserIsArchived(conf, expName)
            == ArchivePrefix + Replace(expName[|UsersPrefix|..], UsersPrefix, ArchivePrefix)
    ensures StartsWith(ReplaceIfUserIsArchived(conf, expName), ArchivePrefix)
  {
    ReplaceIfUserIsArchivedCases(conf, expName);
    assert expName[..|UsersPrefix|] == (UsersPrefix + user)[..|UsersPrefix|];
  }
}
