/**
 * Which usernames may be tracked: the fixed protected blacklist, the
 * user's own blacklist (edited as text, one name per line), the
 * case-insensitive match between a name and the two lists, and the
 * decision `add_user` takes on a typed name.
 */
module Blacklists {
  import opened Text

  /** The protected blacklist: these names can never be tracked nor removed from the list. */
  const ProtectedNames: seq<string> := [
    "zah German", "Zayypoo", "TopazAnt6349", "NurRamon", "sxdaq", "dqrk 1ce", "H0nri",
    "Rcvcx", "GG Kronix", "xqleqn", "zRqbia", "Isixtra", "cb6h"]

  /** Both sides of a blacklist comparison are lower-cased and stripped. */
  function Normalize(name: string): string {
    Strip(Lower(name))
  }

  /** Some entry of `names` normalises to `key`. */
  predicate Matches(key: string, names: seq<string>) {
    exists i :: 0 <= i < |names| && Normalize(names[i]) == key
  }

  /** `is_blacklisted`: the name matches a protected entry or a user entry. */
  predicate Blacklisted(username: string, protected: seq<string>, blacklist: seq<string>) {
    Matches(Normalize(username), protected) || Matches(Normalize(username), blacklist)
  }

  /** The non-blank lines of the text, each stripped. */
  function KeepEntries(lines: seq<string>): seq<string> {
    if lines == [] then []
    else (if Strip(lines[0]) != "" then [Strip(lines[0])] else []) + KeepEntries(lines[1..])
  }

  /** `BlacklistDialog.get_blacklist`: the edited text back as a list of names. */
  function GetBlacklist(text: string): seq<string> {
    KeepEntries(SplitLines(text))
  }

  /** What `add_user` does with the (already stripped) name from the dialog. */
  datatype AddOutcome = Ignored | RefusedBlacklisted | AlreadyTracking | Added

  /** Checked in this order: empty, blacklisted, tracked under exactly this spelling. */
  function Decide(username: string, protected: seq<string>, blacklist: seq<string>, tracked: set<string>): AddOutcome {
    if username == "" then Ignored
    else if Blacklisted(username, protected, blacklist) then RefusedBlacklisted
    else if username in tracked then AlreadyTracking
    else Added
  }

  // ----- Properties -----

  lemma NormalizeLower(name: string)
    ensures Normalize(Lower(name)) == Normalize(name)
  {
    LowerIdempotent(name);
  }

  lemma NormalizeStrip(name: string)
    ensures Normalize(Strip(name)) == Normalize(name)
  {
    StripLowerCommute(name);
    StripIdempotent(Lower(name));
  }

  /** The match ignores case and surrounding whitespace of the name asked about. */
  lemma BlacklistIgnoresCase(username: string, protected: seq<string>, blacklist: seq<string>)
    ensures Blacklisted(Lower(username), protected, blacklist) == Blacklisted(username, protected, blacklist)
    ensures Blacklisted(Strip(username), protected, blacklist) == Blacklisted(username, protected, blacklist)
  {
    NormalizeLower(username);
    NormalizeStrip(username);
  }

  /** Every protected name and every entry of the user's list is blacklisted. */
  lemma ListedNamesBlocked(protected: seq<string>, blacklist: seq<string>)
    ensures forall i :: 0 <= i < |protected| ==> Blacklisted(protected[i], protected, blacklist)
    ensures forall i :: 0 <= i < |blacklist| ==> Blacklisted(blacklist[i], protected, blacklist)
  {
  }

  /**
   * A name is added exactly when it is non-empty, matches no blacklist entry
   * and is not a key of the tracked set; a blacklisted name is refused
   * even when it is already tracked.
   */
  lemma DecideAdds(username: string, protected: seq<string>, blacklist: seq<string>, tracked: set<string>)
    ensures Decide(username, protected, blacklist, tracked) == Added <==>
      username != "" && !Blacklisted(username, protected, blacklist) && username !in tracked
    ensures username != "" && Blacklisted(username, protected, blacklist) ==>
      Decide(username, protected, blacklist, tracked) == RefusedBlacklisted
  {
  }

  /** An entry kept from a line is non-empty, stripped, and single-line. */
  predicate Entry(name: string) {
    name != "" && Trimmed(name) && '\n' !in name
  }

  lemma StripKeepsSingleLine(line: string)
    requires '\n' !in line
    ensures '\n' !in Strip(line)
  {
    StripShape(line);
  }

  lemma {:induction false} KeepEntriesWellFormed(lines: seq<string>)
    requires forall i :: 0 <= i < |lines| ==> '\n' !in lines[i]
    ensures forall i :: 0 <= i < |KeepEntries(lines)| ==> Entry(KeepEntries(lines)[i])
  {
    if lines != [] {
      StripShape(lines[0]);
      StripKeepsSingleLine(lines[0]);
      KeepEntriesWellFormed(lines[1..]);
    }
  }

  /** Every name the dialog returns is non-empty, stripped and without a newline. */
  lemma GetBlacklistEntries(text: string)
    ensures forall i :: 0 <= i < |GetBlacklist(text)| ==> Entry(GetBlacklist(text)[i])
  {
    SplitLinesNoNewline(text);
    KeepEntriesWellFormed(SplitLines(text));
  }

  lemma {:induction false} KeepEntriesIdentity(names: seq<string>)
    requires forall i :: 0 <= i < |names| ==> Entry(names[i])
    ensures KeepEntries(names) == names
  {
    if names != [] {
      StripTrimmed(names[0]);
      KeepEntriesIdentity(names[1..]);
    }
  }

  /**
   * The dialog shows the list joined by newlines; accepting it unedited
   * gives the same list back, provided every name is a proper entry.
   */
  lemma DialogRoundTrip(blacklist: seq<string>)
    requires forall i :: 0 <= i < |blacklist| ==> Entry(blacklist[i])
    ensures GetBlacklist(JoinLines(blacklist)) == blacklist
  {
    if blacklist == [] {
      assert SplitLines(JoinLines(blacklist)) == [""];
    } else {
      SplitJoinLines(blacklist);
    }
    KeepEntriesIdentity(blacklist);
  }

  /** Reopening the dialog and accepting it unedited leaves the user's blacklist as it was. */
  lemma DialogStable(text: string)
    ensures GetBlacklist(JoinLines(GetBlacklist(text))) == GetBlacklist(text)
  {
    GetBlacklistEntries(text);
    DialogRoundTrip(GetBlacklist(text));
  }
}
