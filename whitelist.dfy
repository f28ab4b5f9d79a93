/**
 * The agent whitelist (`src/watcher/whitelist_watcher.cpp`): every watch
 * turns the whitelist file into the set of hostnames the master may use, or
 * into "no whitelist" (accept every agent), and tells the subscriber only
 * when that differs from what it was told last.
 *
 * Reading the file is a parameter: `read` maps a local path to its contents
 * or to an error.
 */
module Whitelist {
  import opened Wrappers
  import Text

  const FilePrefix: string := "file://"

  /** `strings::remove(path, "file://", strings::PREFIX)`: the path without a leading `file://`. */
  function LocalPath(path: string): (p: string)
    ensures Text.StartsWith(path, FilePrefix) ==> FilePrefix + p == path
    ensures !Text.StartsWith(path, FilePrefix) ==> p == path
  {
    if Text.StartsWith(path, FilePrefix) then path[|FilePrefix|..] else path
  }

  /** The hostnames a non-empty whitelist file names: its non-empty lines. */
  function Hostnames(content: string): (hosts: set<string>)
    ensures forall h :: h in hosts <==> h != [] && h in Text.Split(content, '\n')
  {
    set h | h in Text.Tokenize(content, '\n')
  }

  /**
   * The whitelist one watch computes: none for the path `*`; the previous
   * one when the file cannot be read; the empty set (reject every agent) for
   * an empty file; otherwise the file's hostnames.
   */
  function ComputeWhitelist(path: string, read: string -> Result<string, string>, last: Option<set<string>>)
    : (whitelist: Option<set<string>>)
    ensures path == "*" ==> whitelist == None
    ensures path != "*" && read(LocalPath(path)).Err? ==> whitelist == last
    ensures path != "*" && read(LocalPath(path)).Ok? ==>
      whitelist == Some(Hostnames(read(LocalPath(path)).value))
  {
    if path == "*" then None
    else
      var contents := read(LocalPath(path));
      if contents.Err? then last
      else if contents.value == [] then BlankLinesRejectAll(contents.value); Some({})
      else Some(Hostnames(contents.value))
  }

  /**
   * A file written as one hostname per line (none empty, none holding a
   * newline) reads back as exactly those hostnames.
   */
  lemma HostnamesOfLines(hosts: seq<string>)
    requires |hosts| >= 1
    requires forall i :: 0 <= i < |hosts| ==> hosts[i] != [] && '\n' !in hosts[i]
    ensures Hostnames(Text.Join(hosts, "\n")) == set h | h in hosts
  {
    Text.SplitJoin(hosts, '\n');
  }

  /** A file of nothing but line breaks rejects every agent, as an empty one does. */
  lemma {:induction false} BlankLinesRejectAll(content: string)
    requires forall i :: 0 <= i < |content| ==> content[i] == '\n'
    ensures Hostnames(content) == {}
  {
    if content != [] {
      BlankLinesRejectAll(content[1..]);
      assert Text.Split(content, '\n') == [[]] + Text.Split(content[1..], '\n');
    }
  }

  /** What the subscriber has been told: never the same whitelist twice in a row. */
  ghost predicate ChangesOnly(delivered: seq<Option<set<string>>>, last: Option<set<string>>)
  {
    last == (if delivered == [] then None else delivered[|delivered| - 1]) &&
    (delivered != [] ==> delivered[0] != None) &&
    (forall i :: 0 < i < |delivered| ==> delivered[i] != delivered[i - 1])
  }

  /** `WhitelistWatcher`: re-reads the whitelist file and tells the subscriber about changes. */
  class WhitelistWatcher {
    const path: string
    var lastWhitelist: Option<set<string>>
    /** Every whitelist handed to the subscriber, in order. */
    var delivered: seq<Option<set<string>>>

    ghost predicate Valid()
      reads this
    {
      ChangesOnly(delivered, lastWhitelist)
    }

    constructor (path: string)
      ensures Valid()
      ensures this.path == path && lastWhitelist == None && delivered == []
    {
      this.path := path;
      lastWhitelist := None;
      delivered := [];
    }

    /**
     * `watch`: compute the whitelist, hand it to the subscriber iff it
     * differs from the last one, and remember it.
     */
    method Watch(read: string -> Result<string, string>)
      requires Valid()
      modifies this
      ensures Valid()
      ensures lastWhitelist == ComputeWhitelist(path, read, old(lastWhitelist))
      ensures delivered == old(delivered) + (if lastWhitelist != old(lastWhitelist) then [lastWhitelist] else [])
    {
      var whitelist: Option<set<string>>;
      if path == "*" {
        whitelist := None;
      } else {
        var contents := read(LocalPath(path));
        if contents.Err? {
          whitelist := lastWhitelist;
        } else if contents.value == [] {
          whitelist := Some({});
        } else {
          var hostnames: set<string> := {};
          var lines := Text.Tokenize(contents.value, '\n');
          for i := 0 to |lines|
            invariant hostnames == set j | 0 <= j < i :: lines[j]
          {
            hostnames := hostnames + {lines[i]};
          }
          assert hostnames == Hostnames(contents.value) by {
            forall h ensures h in hostnames <==> h in lines {
              if h in lines {
                var j :| 0 <= j < |lines| && lines[j] == h;
                assert h == lines[j];
              }
            }
          }
          whitelist := Some(hostnames);
        }
      }
      if whitelist != lastWhitelist {
        delivered := delivered + [whitelist];
      }
      lastWhitelist := whitelist;
    }
  }
}
