/** The `security_baseline_syslog` fact (lib/facter/security_baseline_syslog.rb):
    the rsyslog and syslog-ng facts assembled from the strings `exec`
    returned for each grep, the service and package checks, and the nested
    report they form. The grep commands, the service check and the package
    check run outside the model; what they returned is the `Observations`
    the fact is computed from. */
module SyslogFact {
  import opened RubyValues
  import opened RubySplit
  import opened ValueHelpers

  /** What `String#match` found: nothing, or the text of capture group 1. */
  datatype Capture = NoMatch | Captured(group: string)

  /** The results of the external calls the fact makes, in source order;
      for a grep, the string `exec` returned for it. */
  datatype Observations = Observations(
    rsyslogService: string,       // check_service_is_enabled('rsyslog')
    rsyslogPackage: bool,         // check_package_installed('rsyslog')
    fileCreateMode: string,       // grep ^$FileCreateMode
    forwarding: string,           // grep for a `*.* @host` forwarding rule
    modLoadImtcp: string,         // grep '$ModLoad imtcp'
    inputTcpServerRun: string,    // grep '$InputTCPServerRun'
    syslogNgService: string,      // check_service_is_enabled('syslog-ng')
    syslogNgPackage: bool,        // check_package_installed('syslog-ng')
    optionsPerm: Capture,         // `perm(\d+)` on the `^options` line
    logserverTcp: Capture,        // `tcp(.*)` on the lines holding `destination` (the pattern is unquoted)
    logSend: string,              // grep for the `source(src); destination(logserver)` route
    netSource: string,            // grep for `source net{ tcp(); }`
    remoteDestination: string,    // grep for the `destination remote` file
    netLog: string)               // grep for the `source(net); destination(remote)` route

  /** The facts reported for one daemon. */
  datatype DaemonFacts = DaemonFacts(
    service: string,
    package: bool,
    filePermissions: string,
    remoteSyslog: string,
    loghost: bool)

  /** The whole fact: one entry per daemon and whether either is installed. */
  datatype FactReport = FactReport(rsyslog: DaemonFacts, syslogNg: DaemonFacts, syslogInstalled: bool)

  /** The default every string fact falls back to. */
  const None: Value := Str("none")

  const FacterCore := "Facter::Core"
  const FacterCode := "Facter::Code"

  /** The keys of one daemon's hash and of the report hash. */
  const DaemonKeys: set<string> := {"service", "package", "filepermissions", "remotesyslog", "loghost"}
  const ReportKeys: set<string> := {"rsyslog", "syslog-ng", "syslog_installed"}

  /** An `exec` result that counts as evidence: neither empty (no match) nor
      the literal default "none". */
  predicate Found(out: string) {
    out != "" && out != "none"
  }

  /** `<namespace>::Execution.exec(cmd)` when `exec` would return `output`:
      only `Facter::Core` exists; any other namespace is an unknown constant. */
  function Exec(namespace: string, output: string): (r: Outcome<Value>)
    ensures r.Returned? <==> namespace == FacterCore
    ensures r.Returned? ==> r.value == Str(output)
    ensures r.Raised? ==> r.error == NameError(namespace)
  {
    if namespace == FacterCore then Returned(Str(output)) else Raised(NameError(namespace))
  }

  /** Every grep issued through the misspelt `Facter::Code` raises NameError,
      whatever `exec` would have returned. */
  lemma FacterCodeRaises(output: string)
    ensures Exec(FacterCode, output) == Raised(NameError(FacterCode))
  {
  }

  /** `check_value_string(val, 'none')` for nil or a String: "none" for nil
      and "", the String itself otherwise. */
  function OrNone(val: Value): (r: string)
    requires val.Nil? || val.Str?
    ensures r != ""
    ensures (val == Nil || val == Str("")) ==> r == "none"
    ensures val.Str? && val.s != "" ==> r == val.s
  {
    CheckValueStringNeverEmpty(val, "none");
    CheckValueString(val, None).value.s
  }

  // ---- rsyslog -------------------------------------------------------------

  /** Line 19 as written: `exec(...).split(%r{\s+})[1].strip`. With fewer than
      two fields `[1]` is nil and `nil.strip` raises, so the "none" default of
      line 20 is never reached; otherwise the second field, stripped. */
  function FileCreateModeAsWritten(out: string): (r: Outcome<Value>)
    ensures r.Raised? <==> |Split(out)| < 2
    ensures r.Raised? ==> r.error == NoMethodError("strip", Nil)
    ensures r.Returned? ==> r.value == Str(Strip(Split(out)[1]))
  {
    RubyStrip(At(Split(out), 1))
  }

  /** Line 19 made nil-safe (`[1]&.strip`): the second field, stripped, or nil
      when there is none. */
  function FileCreateModeToken(out: string): (r: Value)
    ensures r.Nil? <==> |Split(out)| < 2
    ensures !r.Nil? ==> r == Str(Strip(Split(out)[1]))
  {
    var field := At(Split(out), 1);
    if field.Str? then Str(Strip(field.s)) else Nil
  }

  /** rsyslog `filepermissions` (lines 19-20, nil-safe): the second
      whitespace-separated field of the `exec` result, stripped, and "none"
      when there is no second field or it strips to nothing. */
  function FileCreateModePermissions(out: string): (r: string)
    ensures |Split(out)| < 2 ==> r == "none"
    ensures |Split(out)| >= 2 && Strip(Split(out)[1]) != "" ==> r == Strip(Split(out)[1])
    ensures |Split(out)| >= 2 && Strip(Split(out)[1]) == "" ==> r == "none"
  {
    OrNone(FileCreateModeToken(out))
  }

  /** rsyslog `remotesyslog` (lines 21-22): the `exec` result as it is, not
      trimmed by the helper, or "none" when it is empty. */
  function RsyslogRemoteSyslog(out: string): (r: string)
    ensures out == "" ==> r == "none"
    ensures out != "" ==> r == out
  {
    OrNone(Str(out))
  }

  /** rsyslog `loghost` (lines 23-31): true exactly when both the
      `$ModLoad imtcp` and the `$InputTCPServerRun` greps found something
      other than "none"; in particular false when either returned "". */
  function RsyslogLoghost(modOut: string, portOut: string): (r: bool)
    ensures r <==> Found(modOut) && Found(portOut)
    ensures modOut == "" || portOut == "" ==> !r
  {
    var mod := OrNone(Str(modOut));
    var port := OrNone(Str(portOut));
    mod != "none" && port != "none"
  }

  // ---- syslog-ng -----------------------------------------------------------

  /** What `exec(...).match(regex)` evaluates to: nil or a MatchData. */
  function MatchValue(c: Capture): (v: Value)
    ensures v.Nil? <==> c.NoMatch?
    ensures c.Captured? ==> v == MatchData([c.group])
  {
    match c
    case NoMatch => Nil
    case Captured(g) => MatchData([g])
  }

  /** Lines 37 and 39 as written: `.strip` is called on the result of
      `.match`, a MatchData or nil, neither of which has `strip`: it raises
      whatever the configuration holds. */
  function CaptureAsWritten(c: Capture): (r: Outcome<Value>)
    ensures r.Raised?
    ensures r.error == NoMethodError("strip", if c.NoMatch? then Nil else MatchData([c.group]))
  {
    RubyStrip(MatchValue(c))
  }

  /** Lines 37 and 39 as intended: capture group 1, stripped, or nil when
      the pattern did not match. */
  function CaptureValue(c: Capture): (r: Value)
    ensures r.Nil? <==> c.NoMatch?
    ensures c.Captured? ==> r == Str(Strip(c.group))
  {
    match c
    case NoMatch => Nil
    case Captured(g) => Str(Strip(g))
  }

  /** syslog-ng `filepermissions` (lines 37-38, as intended): the stripped
      `perm(...)` argument, or "none" when there is none. */
  function SyslogNgPermissions(c: Capture): (r: string)
    ensures c.NoMatch? ==> r == "none"
    ensures c.Captured? && Strip(c.group) != "" ==> r == Strip(c.group)
    ensures c.Captured? && Strip(c.group) == "" ==> r == "none"
  {
    OrNone(CaptureValue(c))
  }

  /** syslog-ng `remotesyslog` (lines 39-47): "none" unless both the
      `tcp(...)` destination (`logserv`) and the log route (`logsend`) were
      found, and then exactly the stripped `tcp(...)` argument. */
  function SyslogNgRemoteSyslog(logserver: Capture, logSendOut: string): (r: string)
    ensures r == "none" || (logserver.Captured? && r == Strip(logserver.group))
    ensures r != "none" <==> logserver.Captured? && Found(Strip(logserver.group)) && Found(logSendOut)
  {
    var logserv := OrNone(CaptureValue(logserver));
    var logsend := OrNone(Str(logSendOut));
    if logserv == "none" || logsend == "none" then "none" else logserv
  }

  /** syslog-ng `loghost` (lines 48-58): true exactly when the `source net`,
      `destination remote` and `log { source(net); destination(remote) }`
      greps all found something other than "none"; false when any one is missing. */
  function SyslogNgLoghost(srcOut: string, destOut: string, logOut: string): (r: bool)
    ensures r <==> Found(srcOut) && Found(destOut) && Found(logOut)
    ensures srcOut == "" || destOut == "" || logOut == "" ==> !r
  {
    var logsrc := OrNone(Str(srcOut));
    var logdest := OrNone(Str(destOut));
    var log := OrNone(Str(logOut));
    logsrc != "none" && logdest != "none" && log != "none"
  }

  // ---- the report ----------------------------------------------------------

  /** The rsyslog facts (lines 16-31): the service and package as observed,
      and each configuration fact by its line's rule. */
  function RsyslogFacts(obs: Observations): (r: DaemonFacts)
    ensures r.service == obs.rsyslogService && r.package == obs.rsyslogPackage
    ensures r.filePermissions == FileCreateModePermissions(obs.fileCreateMode)
    ensures r.remoteSyslog == RsyslogRemoteSyslog(obs.forwarding)
    ensures r.loghost <==> Found(obs.modLoadImtcp) && Found(obs.inputTcpServerRun)
  {
    DaemonFacts(
      obs.rsyslogService,
      obs.rsyslogPackage,
      FileCreateModePermissions(obs.fileCreateMode),
      RsyslogRemoteSyslog(obs.forwarding),
      RsyslogLoghost(obs.modLoadImtcp, obs.inputTcpServerRun))
  }

  /** The syslog-ng facts (lines 34-58): the service and package as
      observed, and each configuration fact by its line's rule. */
  function SyslogNgFacts(obs: Observations): (r: DaemonFacts)
    ensures r.service == obs.syslogNgService && r.package == obs.syslogNgPackage
    ensures r.filePermissions == SyslogNgPermissions(obs.optionsPerm)
    ensures r.remoteSyslog == SyslogNgRemoteSyslog(obs.logserverTcp, obs.logSend)
    ensures r.remoteSyslog != "none" <==>
              obs.logserverTcp.Captured? && Found(Strip(obs.logserverTcp.group)) && Found(obs.logSend)
    ensures r.loghost <==> Found(obs.netSource) && Found(obs.remoteDestination) && Found(obs.netLog)
  {
    DaemonFacts(
      obs.syslogNgService,
      obs.syslogNgPackage,
      SyslogNgPermissions(obs.optionsPerm),
      SyslogNgRemoteSyslog(obs.logserverTcp, obs.logSend),
      SyslogNgLoghost(obs.netSource, obs.remoteDestination, obs.netLog))
  }

  /** The report (lines 14-63): both daemons' facts, and `syslog_installed`
      true exactly when either package is installed. */
  function Report(obs: Observations): (r: FactReport)
    ensures r.syslogInstalled <==> obs.rsyslogPackage || obs.syslogNgPackage
    ensures r.rsyslog.package == obs.rsyslogPackage && r.syslogNg.package == obs.syslogNgPackage
    ensures r.rsyslog.service == obs.rsyslogService && r.syslogNg.service == obs.syslogNgService
    ensures r.rsyslog == RsyslogFacts(obs) && r.syslogNg == SyslogNgFacts(obs)
  {
    var rsyslog := RsyslogFacts(obs);
    var syslogNg := SyslogNgFacts(obs);
    FactReport(rsyslog, syslogNg, rsyslog.package || syslogNg.package)
  }

  /** One daemon's facts as the Ruby hash the fact reports. */
  function DaemonHash(f: DaemonFacts): (m: map<string, Value>)
    ensures m.Keys == DaemonKeys
    ensures forall k :: k in m ==> m[k].Str? || m[k].Bool?
    ensures m["service"] == Str(f.service)
    ensures m["filepermissions"] == Str(f.filePermissions) && m["remotesyslog"] == Str(f.remoteSyslog)
    ensures m["loghost"] == Bool(f.loghost) && m["package"] == Bool(f.package)
  {
    map[
      "service" := Str(f.service),
      "package" := Bool(f.package),
      "filepermissions" := Str(f.filePermissions),
      "remotesyslog" := Str(f.remoteSyslog),
      "loghost" := Bool(f.loghost)]
  }

  /** The report as the nested Ruby hash: exactly the keys `rsyslog`,
      `syslog-ng` and `syslog_installed`, each daemon a hash with exactly
      the five daemon keys, and every leaf a String or a boolean, never nil. */
  function ToHash(report: FactReport): (v: Value)
    ensures v.Hash? && v.entries.Keys == ReportKeys
    ensures v.entries["syslog_installed"] == Bool(report.syslogInstalled)
    ensures v.entries["rsyslog"] == Hash(DaemonHash(report.rsyslog))
    ensures v.entries["syslog-ng"] == Hash(DaemonHash(report.syslogNg))
    ensures forall d :: d in {"rsyslog", "syslog-ng"} ==>
              v.entries[d].Hash? && v.entries[d].entries.Keys == DaemonKeys
    ensures forall d, k :: d in {"rsyslog", "syslog-ng"} && k in v.entries[d].entries ==>
              v.entries[d].entries[k].Str? || v.entries[d].entries[k].Bool?
  {
    Hash(map[
      "rsyslog" := Hash(DaemonHash(report.rsyslog)),
      "syslog-ng" := Hash(DaemonHash(report.syslogNg)),
      "syslog_installed" := Bool(report.syslogInstalled)])
  }

  /** Lines 16-31: the rsyslog hash, filled key by key, `val` holding each
      grep result in turn (line 19 made nil-safe). It is the hash of the
      rsyslog facts. */
  method BuildRsyslog(obs: Observations) returns (rsyslog: map<string, Value>)
    ensures rsyslog == DaemonHash(RsyslogFacts(obs))
  {
    rsyslog := map[];
    rsyslog := rsyslog["service" := Str(obs.rsyslogService)];
    rsyslog := rsyslog["package" := Bool(obs.rsyslogPackage)];
    var val := Exec(FacterCore, obs.fileCreateMode).value;
    val := FileCreateModeToken(val.s);
    var permissions := OrNone(val);
    rsyslog := rsyslog["filepermissions" := Str(permissions)];
    val := Exec(FacterCore, obs.forwarding).value;
    var remote := OrNone(val);
    rsyslog := rsyslog["remotesyslog" := Str(remote)];
    val := Exec(FacterCore, obs.modLoadImtcp).value;
    var mod := OrNone(val);
    val := Exec(FacterCore, obs.inputTcpServerRun).value;
    var port := OrNone(val);
    var loghost := mod != "none" && port != "none";
    assert loghost == RsyslogLoghost(obs.modLoadImtcp, obs.inputTcpServerRun);
    rsyslog := rsyslog["loghost" := Bool(loghost)];
    assert rsyslog == map[
      "service" := Str(obs.rsyslogService),
      "package" := Bool(obs.rsyslogPackage),
      "filepermissions" := Str(FileCreateModePermissions(obs.fileCreateMode)),
      "remotesyslog" := Str(RsyslogRemoteSyslog(obs.forwarding)),
      "loghost" := Bool(loghost)];
  }

  /** Lines 34-58: the syslog-ng hash, filled key by key, with the captures
      of lines 37 and 39 taken as intended and the greps of lines 41, 50 and
      52 run through `Facter::Core`. It is the hash of the syslog-ng facts. */
  method BuildSyslogNg(obs: Observations) returns (syslogNg: map<string, Value>)
    ensures syslogNg == DaemonHash(SyslogNgFacts(obs))
  {
    syslogNg := map[];
    syslogNg := syslogNg["service" := Str(obs.syslogNgService)];
    syslogNg := syslogNg["package" := Bool(obs.syslogNgPackage)];
    var val := CaptureValue(obs.optionsPerm);
    var permissions := OrNone(val);
    syslogNg := syslogNg["filepermissions" := Str(permissions)];
    val := CaptureValue(obs.logserverTcp);
    var logserv := OrNone(val);
    val := Exec(FacterCore, obs.logSend).value;
    var logsend := OrNone(val);
    var remote := if logserv == "none" || logsend == "none" then "none" else logserv;
    assert remote == SyslogNgRemoteSyslog(obs.logserverTcp, obs.logSend);
    syslogNg := syslogNg["remotesyslog" := Str(remote)];
    val := Exec(FacterCore, obs.netSource).value;
    var logsrc := OrNone(val);
    val := Exec(FacterCore, obs.remoteDestination).value;
    var logdest := OrNone(val);
    val := Exec(FacterCore, obs.netLog).value;
    var log := OrNone(val);
    var loghost := logsrc != "none" && logdest != "none" && log != "none";
    assert loghost == SyslogNgLoghost(obs.netSource, obs.remoteDestination, obs.netLog);
    syslogNg := syslogNg["loghost" := Bool(loghost)];
    assert syslogNg == map[
      "service" := Str(obs.syslogNgService),
      "package" := Bool(obs.syslogNgPackage),
      "filepermissions" := Str(SyslogNgPermissions(obs.optionsPerm)),
      "remotesyslog" := Str(remote),
      "loghost" := Bool(loghost)];
  }

  /** The `setcode` block (lines 14-63) with lines 19, 37, 39, 41, 50 and 52
      corrected: the report hash starts empty, receives the two daemon
      hashes, and `syslog_installed` is read back from them with `||`. The
      result is the hash of `Report`. */
  method SetCode(obs: Observations) returns (report: Value)
    ensures report == ToHash(Report(obs))
  {
    var securityBaselineSyslog: map<string, Value> := map[];
    var rsyslog := BuildRsyslog(obs);
    securityBaselineSyslog := securityBaselineSyslog["rsyslog" := Hash(rsyslog)];
    var syslogNg := BuildSyslogNg(obs);
    securityBaselineSyslog := securityBaselineSyslog["syslog-ng" := Hash(syslogNg)];
    var installed := Or(securityBaselineSyslog["rsyslog"].entries["package"],
                        securityBaselineSyslog["syslog-ng"].entries["package"]);
    assert installed == Bool(Report(obs).syslogInstalled);
    securityBaselineSyslog := securityBaselineSyslog["syslog_installed" := installed];
    assert securityBaselineSyslog == map[
      "rsyslog" := Hash(DaemonHash(Report(obs).rsyslog)),
      "syslog-ng" := Hash(DaemonHash(Report(obs).syslogNg)),
      "syslog_installed" := Bool(Report(obs).syslogInstalled)];
    report := Hash(securityBaselineSyslog);
  }

  /** The `setcode` block as written: when the `$FileCreateMode` grep returns
      fewer than two fields line 19 raises, and otherwise line 37 raises.
      The block never returns a report. */
  function SetCodeAsWritten(obs: Observations): (r: Outcome<Value>)
    ensures r.Raised?
    ensures |Split(obs.fileCreateMode)| < 2 ==> r.error == NoMethodError("strip", Nil)
    ensures |Split(obs.fileCreateMode)| >= 2 ==> r.error == NoMethodError("strip", MatchValue(obs.optionsPerm))
  {
    match FileCreateModeAsWritten(obs.fileCreateMode)
    case Raised(e) => Raised(e)
    case Returned(_) => CaptureAsWritten(obs.optionsPerm)
  }

  // ---- properties of the report --------------------------------------------

  /** A word `strip` leaves alone: no `\s` character and no NUL. */
  predicate CleanWord(w: string) {
    w != [] && forall k :: 0 <= k < |w| ==> !IsStripped(w[k])
  }

  /** When `exec` returns words separated by runs of whitespace of any kind
      (spaces, tabs, the newlines between the lines of several files) and
      perhaps followed by whitespace, line 19 takes the second word, as
      written and nil-safe alike; with several matching lines that is the
      mode of the first. */
  lemma FileCreateModeSecondWord(ws: seq<string>, seps: seq<string>, trail: string)
    requires |ws| >= 2 && |seps| == |ws| - 1
    requires forall i :: 0 <= i < |ws| ==> IsWord(ws[i])
    requires forall i :: 0 <= i < |seps| ==> IsSeparator(seps[i])
    requires AllSpace(trail)
    requires CleanWord(ws[1])
    ensures FileCreateModeAsWritten(JoinWith(ws, seps) + trail) == Returned(Str(ws[1]))
    ensures FileCreateModePermissions(JoinWith(ws, seps) + trail) == ws[1]
  {
    var out := JoinWith(ws, seps) + trail;
    SplitJoinWith([], ws, seps, trail);
    assert [] + JoinWith(ws, seps) == JoinWith(ws, seps);
    assert Split(out) == ws;
    assert Strip(ws[1]) == ws[1];
  }

  /** Ruby's split keeps a leading empty field, so when the `exec` result starts
      with whitespace line 19 takes the first word instead of the second. */
  lemma FileCreateModeLeadingSpace(lead: string, ws: seq<string>, seps: seq<string>, trail: string)
    requires lead != [] && AllSpace(lead) && AllSpace(trail)
    requires |ws| >= 1 && |seps| == |ws| - 1
    requires forall i :: 0 <= i < |ws| ==> IsWord(ws[i])
    requires forall i :: 0 <= i < |seps| ==> IsSeparator(seps[i])
    requires CleanWord(ws[0])
    ensures FileCreateModeAsWritten(lead + JoinWith(ws, seps) + trail) == Returned(Str(ws[0]))
    ensures FileCreateModePermissions(lead + JoinWith(ws, seps) + trail) == ws[0]
  {
    SplitJoinWith(lead, ws, seps, trail);
  }

  /** Line 39 sends grep's errors to `/sdev/null`, which does not exist, so
      the shell never runs that grep, `exec` returns "" and `tcp(...)` never
      matches: syslog-ng `remotesyslog` is then "none" whatever the
      configuration holds. */
  lemma RemoteSyslogWithoutLogserver(obs: Observations)
    requires obs.logserverTcp == NoMatch
    ensures SyslogNgFacts(obs).remoteSyslog == "none"
    ensures ToHash(Report(obs)).entries["syslog-ng"].entries["remotesyslog"] == None
  {
  }

  /** When no configuration file exists every grep returns "" and no
      capture matches: the corrected fact reports "none", "none" and false
      for both daemons, while the block as written raises at line 19. */
  lemma MissingConfiguration(obs: Observations)
    requires obs.fileCreateMode == "" && obs.forwarding == ""
    requires obs.modLoadImtcp == "" && obs.inputTcpServerRun == ""
    requires obs.optionsPerm == NoMatch && obs.logserverTcp == NoMatch
    requires obs.logSend == "" && obs.netSource == ""
    requires obs.remoteDestination == "" && obs.netLog == ""
    ensures Report(obs).rsyslog == DaemonFacts(obs.rsyslogService, obs.rsyslogPackage, "none", "none", false)
    ensures Report(obs).syslogNg == DaemonFacts(obs.syslogNgService, obs.syslogNgPackage, "none", "none", false)
    ensures SetCodeAsWritten(obs) == Raised(NoMethodError("strip", Nil))
  {
    assert Split("") == [];
  }

  /** The host the fact's test fixture describes: rsyslog enabled and
      installed, `$FileCreateMode 0640`, TCP input loaded and bound, no
      forwarding rule; syslog-ng disabled, not installed, not configured. */
  const FixtureFileCreateMode := ["/etc/rsyslog.conf:$FileCreateMode", "0640"]
  const FixtureSeparators := [" "]
  const Fixture := Observations(
    "enabled", true,
    JoinWith(FixtureFileCreateMode, FixtureSeparators),
    "",
    "/etc/rsyslog.conf:$ModLoad imtcp",
    "/etc/rsyslog.conf:$InputTCPServerRun 514",
    "disabled", false,
    NoMatch, NoMatch, "", "", "", "")

  /** The fixture's `$FileCreateMode` line consists of two words separated
      by one space, and the second has nothing `strip` would remove. */
  lemma FixtureWords()
    ensures IsWord(FixtureFileCreateMode[0]) && CleanWord(FixtureFileCreateMode[1])
    ensures IsSeparator(FixtureSeparators[0])
  {
    var w := FixtureFileCreateMode[0];
    assert forall k :: 0 <= k < |w| ==> !IsSpace(w[k]);
  }

  /** On that host `filepermissions` is "0640", the second word of what
      `exec` returned. */
  lemma FixturePermissions()
    ensures FileCreateModePermissions(Fixture.fileCreateMode) == "0640"
  {
    FixtureWords();
    var out := JoinWith(FixtureFileCreateMode, FixtureSeparators);
    assert out + "" == out;
    FileCreateModeSecondWord(FixtureFileCreateMode, FixtureSeparators, "");
  }

  /** On that host the rsyslog facts are those of the fixture:
      filepermissions "0640", loghost true, remotesyslog "none". */
  lemma FixtureRsyslog()
    ensures RsyslogFacts(Fixture) == DaemonFacts("enabled", true, "0640", "none", true)
  {
    FixturePermissions();
    assert Found(Fixture.modLoadImtcp) && Found(Fixture.inputTcpServerRun);
  }

  /** On that host the whole report holds the fixture's values, the
      syslog-ng defaults and syslog_installed true. */
  lemma FixtureFacts()
    ensures Report(Fixture) == FactReport(
      DaemonFacts("enabled", true, "0640", "none", true),
      DaemonFacts("disabled", false, "none", "none", false),
      true)
  {
    FixtureRsyslog();
  }

  /** ... and reports them as exactly the fixture's nested hash. */
  lemma FixtureReport()
    ensures ToHash(Report(Fixture)) == Hash(map[
      "rsyslog" := Hash(map[
        "service" := Str("enabled"),
        "package" := Bool(true),
        "filepermissions" := Str("0640"),
        "remotesyslog" := Str("none"),
        "loghost" := Bool(true)]),
      "syslog-ng" := Hash(map[
        "service" := Str("disabled"),
        "package" := Bool(false),
        "filepermissions" := Str("none"),
        "remotesyslog" := Str("none"),
        "loghost" := Bool(false)]),
      "syslog_installed" := Bool(true)])
  {
    FixtureFacts();
  }
}
