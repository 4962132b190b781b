/** `HostsSettingsViewModel` (MyInternetChecker/ViewModels/HostsSettingsViewModel.cs):
    the host list of the settings dialog, kept beside every raw line of the
    hosts file so that saving writes back the lines it read. The file is
    given by its lines; `Config.SettingsFilePath`, which names it, is not part
    of this model. An `ErrorOccurred` event is the message a method returns. */
module HostsSettingsViewModel {
  import opened Wrappers
  import opened Text
  import opened SettingsModels
  import opened HostLists

  /** What reading the hosts file gives: no file, a read that throws with a
      message, or its lines. */
  datatype HostsFile = NoFile | Unreadable(message: string) | Lines(lines: seq<string>)

  const EnterHostName: string := "Введите имя хоста"
  const AlreadyListed: string := "Этот хост уже есть в списке"
  const LoadFailed: string := "Ошибка загрузки настроек: "

  /** A trimmed line that names a host: not empty and not a `#` comment. */
  predicate IsHostLine(t: string) {
    t != [] && !StartsWithChar(t, '#')
  }

  /** The `Select(Trim).Where(...)` of `Load`: the trimmed host lines, in
      file order. */
  function HostLines(lines: seq<string>): (r: seq<string>)
    ensures |r| <= |lines|
    ensures forall h :: h in r ==> IsTrimmed(h) && IsHostLine(h)
  {
    if lines == [] then []
    else
      var t := Trim(lines[0]);
      (if IsHostLine(t) then [t] else []) + HostLines(lines[1..])
  }

  /** `FirstOrDefault(line => line.Trim() == host)`. */
  function FirstLineFor(lines: seq<string>, host: string): (r: Option<string>)
    ensures r.Some? ==> r.value in lines && Trim(r.value) == host
    ensures r.None? ==> forall i :: 0 <= i < |lines| ==> Trim(lines[i]) != host
  {
    if lines == [] then None
    else if Trim(lines[0]) == host then Some(lines[0])
    else FirstLineFor(lines[1..], host)
  }

  /** The raw lines after `DeleteHost(host)`: the first line trimming to
      `host`, if any, removed. */
  function LinesAfterDelete(lines: seq<string>, host: string): seq<string> {
    match FirstLineFor(lines, host)
    case None => lines
    case Some(line) => RemoveFirst(lines, line)
  }

  class HostsSettingsViewModel {
    /** `Hosts`, the list shown. */
    var hosts: seq<string>
    /** `_AllFileLines`, what `Save` writes. */
    var allFileLines: seq<string>
    /** `NewHost`, the text typed for a new host. */
    var newHost: string

    /** Saving and reading the file again would show the same hosts. */
    predicate Consistent()
      reads this
    {
      hosts == HostLines(allFileLines)
    }

    /** The constructor loads the file; no one has subscribed to
        `ErrorOccurred` yet, so a load error is dropped. */
    constructor(file: HostsFile)
      ensures newHost == [] && Consistent()
      ensures file.Lines? ==> allFileLines == file.lines
      ensures file.NoFile? ==> hosts == DefaultHosts && allFileLines == DefaultHosts
      ensures file.Unreadable? ==> hosts == [] && allFileLines == []
    {
      hosts := [];
      allFileLines := [];
      newHost := [];
      new;
      var _ := Load(file);
    }

    /** `Load`: every raw line kept, the host lines shown; the two default
        hosts when there is no file; both lists empty and an error when the
        read throws. */
    method Load(file: HostsFile) returns (error: Option<string>)
      modifies this
      ensures Consistent() && newHost == old(newHost)
      ensures file.Lines? ==> allFileLines == file.lines && error == None
      ensures file.NoFile? ==> hosts == DefaultHosts && allFileLines == DefaultHosts && error == None
      ensures file.Unreadable? ==> hosts == [] && allFileLines == [] && error == Some(LoadFailed + file.message)
    {
      hosts := [];
      allFileLines := [];
      error := None;
      match file {
        case Lines(lines) =>
          for i := 0 to |lines|
            invariant allFileLines == lines[..i] && hosts == [] && newHost == old(newHost)
          {
            allFileLines := allFileLines + [lines[i]];
          }
          assert lines[..|lines|] == lines;
          var kept := HostLines(lines);
          for i := 0 to |kept|
            invariant hosts == kept[..i] && allFileLines == lines && newHost == old(newHost)
          {
            hosts := hosts + [kept[i]];
          }
          assert kept[..|kept|] == kept;
        case NoFile =>
          for i := 0 to |DefaultHosts|
            invariant hosts == DefaultHosts[..i] && allFileLines == DefaultHosts[..i] && newHost == old(newHost)
          {
            hosts := hosts + [DefaultHosts[i]];
            allFileLines := allFileLines + [DefaultHosts[i]];
          }
          assert DefaultHosts[..|DefaultHosts|] == DefaultHosts;
          DefaultsAreHostLines();
        case Unreadable(message) =>
          error := Some(LoadFailed + message);
      }
    }

    /** `AddNewHost`: the trimmed text is refused when empty or already
        listed; otherwise it is appended to both lists and the text cleared. */
    method AddNewHost() returns (error: Option<string>)
      modifies this
      ensures var t := Trim(old(newHost));
        if t == [] then error == Some(EnterHostName) && hosts == old(hosts) && allFileLines == old(allFileLines) && newHost == old(newHost)
        else if t in old(hosts) then error == Some(AlreadyListed) && hosts == old(hosts) && allFileLines == old(allFileLines) && newHost == old(newHost)
        else error == None && hosts == old(hosts) + [t] && allFileLines == old(allFileLines) + [t] && newHost == []
      ensures NoDuplicates(old(hosts)) ==> NoDuplicates(hosts)
      ensures old(Consistent()) && !StartsWithChar(Trim(old(newHost)), '#') ==> Consistent()
    {
      var t := Trim(newHost);
      if t == [] {
        return Some(EnterHostName);
      }
      if t in hosts {
        return Some(AlreadyListed);
      }
      if NoDuplicates(hosts) {
        AppendFresh(hosts, t);
      }
      HostLinesAppend(allFileLines, t);
      TrimTrimmed(t);
      hosts := hosts + [t];
      allFileLines := allFileLines + [t];
      newHost := [];
      error := None;
    }

    /** `DeleteHost`: nothing for a missing or blank argument; otherwise the
        first equal host and the first raw line trimming to it go. */
    method DeleteHost(hostToDelete: Option<string>)
      modifies this
      ensures hostToDelete.None? || IsBlank(hostToDelete.value) ==>
        hosts == old(hosts) && allFileLines == old(allFileLines)
      ensures hostToDelete.Some? && !IsBlank(hostToDelete.value) ==>
        hosts == RemoveFirst(old(hosts), hostToDelete.value) &&
        allFileLines == LinesAfterDelete(old(allFileLines), hostToDelete.value)
      ensures newHost == old(newHost)
      ensures old(Consistent()) ==> Consistent()
      ensures NoDuplicates(old(hosts)) ==> NoDuplicates(hosts)
      ensures NoDuplicates(old(hosts)) && hostToDelete.Some? && !IsBlank(hostToDelete.value) ==> hostToDelete.value !in hosts
    {
      if hostToDelete.None? || IsBlank(hostToDelete.value) {
        return;
      }
      var host := hostToDelete.value;
      if NoDuplicates(hosts) {
        RemoveFirstFromDistinct(hosts, host);
      }
      DeleteMatches(allFileLines, host);
      hosts := RemoveFirst(hosts, host);
      var lineToDelete := FirstLineFor(allFileLines, host);
      if lineToDelete.Some? {
        allFileLines := RemoveFirst(allFileLines, lineToDelete.value);
      }
    }
  }

  // ---------------------------------------------------------------------------
  // Properties
  // ---------------------------------------------------------------------------

  /** The default hosts are their own host lines. */
  lemma DefaultsAreHostLines()
    ensures HostLines(DefaultHosts) == DefaultHosts
  {
    var a: string := "ya.ru";
    var b: string := "google.com";
    TrimTrimmed(a);
    TrimTrimmed(b);
    assert DefaultHosts[1..] == [b] && [b][1..] == [];
    assert HostLines([b]) == [b];
  }

  /** A host is listed when some line trims to it and that line is not a
      comment, in file order. */
  lemma {:induction false} HostLinesMembership(lines: seq<string>, h: string)
    ensures h in HostLines(lines) <==> IsHostLine(h) && exists i :: 0 <= i < |lines| && Trim(lines[i]) == h
  {
    if lines != [] {
      HostLinesMembership(lines[1..], h);
      if exists i :: 0 <= i < |lines[1..]| && Trim(lines[1..][i]) == h {
        var i :| 0 <= i < |lines[1..]| && Trim(lines[1..][i]) == h;
        assert Trim(lines[i + 1]) == h;
      }
      if exists i :: 0 <= i < |lines| && Trim(lines[i]) == h {
        var i :| 0 <= i < |lines| && Trim(lines[i]) == h;
        if i > 0 {
          assert Trim(lines[1..][i - 1]) == h;
        }
      }
    }
  }

  /** One more line read adds its trimmed text when it names a host. */
  lemma {:induction false} HostLinesAppend(lines: seq<string>, line: string)
    ensures HostLines(lines + [line]) ==
      HostLines(lines) + (if IsHostLine(Trim(line)) then [Trim(line)] else [])
  {
    if lines != [] {
      assert (lines + [line])[1..] == lines[1..] + [line];
      HostLinesAppend(lines[1..], line);
    } else {
      assert [line][1..] == [];
    }
  }

  /** A trimmed host starting with `#` can be added to the list, but the
      saved lines give it back as a comment: the list read again lacks it. */
  lemma AddedCommentNotReloaded(lines: seq<string>, host: string)
    requires IsTrimmed(host) && StartsWithChar(host, '#')
    ensures HostLines(lines + [host]) == HostLines(lines)
  {
    HostLinesAppend(lines, host);
    TrimTrimmed(host);
  }

  /** Deleting a host from the raw lines deletes it from the host lines:
      the first line trimming to the host is the line that listed it. */
  lemma {:induction false} DeleteMatches(lines: seq<string>, host: string)
    ensures HostLines(LinesAfterDelete(lines, host)) == RemoveFirst(HostLines(lines), host)
  {
    if lines != [] {
      var rest := lines[1..];
      var t := Trim(lines[0]);
      var head := if IsHostLine(t) then [t] else [];
      assert HostLines(lines) == head + HostLines(rest);
      if t == host {
        DeleteFirstLine(lines, host);
        if IsHostLine(t) {
          assert (head + HostLines(rest))[1..] == HostLines(rest);
        }
      } else {
        DeleteMatches(rest, host);
        DeleteLaterLine(lines, host);
        HostLinesCons(lines[0], LinesAfterDelete(rest, host));
        RemoveFirstAfterOther(head, HostLines(rest), host);
      }
    }
  }

  /** A first line trimming to the host is the line deleted. */
  lemma DeleteFirstLine(lines: seq<string>, host: string)
    requires lines != [] && Trim(lines[0]) == host
    ensures LinesAfterDelete(lines, host) == lines[1..]
  {
  }

  /** A first line not trimming to the host stays in front. */
  lemma DeleteLaterLine(lines: seq<string>, host: string)
    requires lines != [] && Trim(lines[0]) != host
    ensures LinesAfterDelete(lines, host) == [lines[0]] + LinesAfterDelete(lines[1..], host)
  {
    var rest := lines[1..];
    var first := FirstLineFor(rest, host);
    assert FirstLineFor(lines, host) == first;
    if first.Some? {
      assert first.value != lines[0];
      assert lines == [lines[0]] + rest;
      RemoveFirstAfterOther([lines[0]], rest, first.value);
    }
  }

  /** Removing skips a prefix not holding the element. */
  lemma RemoveFirstAfterOther(head: seq<string>, s: seq<string>, x: string)
    requires |head| <= 1 && x !in head
    ensures RemoveFirst(head + s, x) == head + RemoveFirst(s, x)
  {
    if head != [] {
      assert (head + s)[0] == head[0] != x;
      assert (head + s)[1..] == s;
    } else {
      assert head + s == s;
    }
  }

  /** The host lines of a line followed by more lines. */
  lemma HostLinesCons(line: string, rest: seq<string>)
    ensures HostLines([line] + rest) ==
      (if IsHostLine(Trim(line)) then [Trim(line)] else []) + HostLines(rest)
  {
    assert ([line] + rest)[1..] == rest;
  }
}
