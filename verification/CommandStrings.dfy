/** The command strings of src/admin-security/admin-security-service.ts that tie a step-up
    receipt to one sensitive operation. */
module CommandStrings {
  import opened AdminContracts

  /** A sensitive operation presented with a receipt token. */
  datatype Request =
    | KillSwitch(switchId: string, desired: bool, fingerprint: Hash, receiptToken: Hash)
    | RegisterService(principalId: string, profile: Profile, fingerprint: Hash, receiptToken: Hash)

  function ProfileName(p: Profile): string {
    match p
    case Scheduler => "SCHEDULER"
    case Worker => "WORKER"
    case Monitor => "MONITOR"
    case Backup => "BACKUP"
  }

  function Prefix(r: Request): string {
    match r
    case KillSwitch(_, _, _, _) => "SET_KILL_SWITCH:"
    case RegisterService(_, _, _, _) => "REGISTER_SERVICE_PRINCIPAL:"
  }

  function Subject(r: Request): string {
    match r
    case KillSwitch(switchId, _, _, _) => switchId
    case RegisterService(principalId, _, _, _) => principalId
  }

  function Suffix(r: Request): string {
    match r
    case KillSwitch(_, desired, _, _) => if desired then ":ON" else ":OFF"
    case RegisterService(_, profile, _, _) => ":" + ProfileName(profile)
  }

  /** `killSwitchCommand` and `servicePrincipalRegistrationCommand`. */
  function Command(r: Request): string {
    Prefix(r) + Subject(r) + Suffix(r)
  }

  function RequestCapability(r: Request): Capability {
    match r
    case KillSwitch(_, _, _, _) => AdminKillSwitchControl
    case RegisterService(_, _, _, _) => AdminServicePrincipalManage
  }

  /** The identifier check of the command builder, then that of `consumeStepUpReceipt` on the
      command it built. */
  predicate Presentable(r: Request) {
    SafeIdentifier(Subject(r)) && SafeIdentifier(Command(r))
  }

  lemma FromTheEnd(r: Request, k: nat)
    requires 1 <= k <= 3
    ensures |Suffix(r)| >= 3 && Command(r)[|Command(r)| - k] == Suffix(r)[|Suffix(r)| - k]
    ensures Command(r)[0] == Prefix(r)[0]
  {
  }

  /** The last three characters tell the six suffixes apart. */
  lemma ThreeCharactersTell(a: Request, b: Request)
    requires Suffix(a)[|Suffix(a)| - 1] == Suffix(b)[|Suffix(b)| - 1]
    requires Suffix(a)[|Suffix(a)| - 2] == Suffix(b)[|Suffix(b)| - 2]
    requires Suffix(a)[|Suffix(a)| - 3] == Suffix(b)[|Suffix(b)| - 3]
    requires a.KillSwitch? <==> b.KillSwitch?
    ensures Suffix(a) == Suffix(b)
  {
    if a.RegisterService? {
      match (a.profile, b.profile) {
        case (Scheduler, Scheduler) =>
        case (Worker, Worker) =>
        case (Monitor, Monitor) =>
        case (Backup, Backup) =>
        case _ =>
      }
    }
  }

  lemma SameKind(a: Request, b: Request)
    requires Command(a) == Command(b)
    ensures a.KillSwitch? <==> b.KillSwitch?
  {
    FromTheEnd(a, 1);
    FromTheEnd(b, 1);
    assert Prefix(a)[0] == Prefix(b)[0];
  }

  lemma SameSuffix(a: Request, b: Request)
    requires Command(a) == Command(b)
    ensures a.KillSwitch? <==> b.KillSwitch?
    ensures Suffix(a) == Suffix(b)
  {
    hide Command, Suffix, Prefix;
    SameKind(a, b);
    FromTheEnd(a, 1);
    FromTheEnd(a, 2);
    FromTheEnd(a, 3);
    FromTheEnd(b, 1);
    FromTheEnd(b, 2);
    FromTheEnd(b, 3);
    ThreeCharactersTell(a, b);
  }

  /** The command string pins the operation: kind, subject, and desired state or profile, even
      though subjects may themselves contain colons. */
  lemma CommandPinsOperation(a: Request, b: Request)
    requires Command(a) == Command(b)
    ensures a.KillSwitch? <==> b.KillSwitch?
    ensures Subject(a) == Subject(b)
    ensures a.KillSwitch? ==> a.desired == b.desired
    ensures a.RegisterService? ==> a.profile == b.profile
  {
    SameSuffix(a, b);
    var p, n := |Prefix(a)|, |Command(a)| - |Suffix(a)|;
    assert Subject(a) == Command(a)[p..n];
    assert Subject(b) == Command(b)[p..n];
    assert Suffix(a)[1] == Suffix(b)[1] && Suffix(a)[2] == Suffix(b)[2];
  }

  /** The doubled identifier check has a length cliff: a switch is controllable exactly up to
      109 characters for ON and 108 for OFF, so a switch with a 109-character identifier can be
      switched on and never off again. */
  lemma PresentableExactly(r: Request)
    ensures Presentable(r)
            <==> SafeIdentifier(Subject(r)) && |Subject(r)| + |Prefix(r)| + |Suffix(r)| <= 128
    ensures r.KillSwitch? ==>
              (Presentable(r) <==> SafeIdentifier(r.switchId) && |r.switchId| <= if r.desired then 109 else 108)
  {
    var c := Command(r);
    var p, n := |Prefix(r)|, |Prefix(r)| + |Subject(r)|;
    assert Prefix(r)[0] == c[0];
    if SafeIdentifier(Subject(r)) {
      forall i | 0 <= i < |c|
        ensures Alphanumeric(c[i]) || c[i] in "._:-"
      {
        if i < p {
          PrefixIsSafe(r, i);
          assert c[i] == Prefix(r)[i];
        } else if i < n {
          assert c[i] == Subject(r)[i - p];
        } else {
          SuffixIsSafe(r, i - n);
          assert c[i] == Suffix(r)[i - n];
        }
      }
    }
  }

  // An identifier of 109 letters.
  const LONG_SWITCH: string := seq(109, _ => 'a')

  /** Such a switch: it can be turned on, but the command to turn it off is too long to present. */
  lemma OnButNeverOff(fingerprint: Hash, receiptToken: Hash)
    ensures SafeIdentifier(LONG_SWITCH)
    ensures Presentable(KillSwitch(LONG_SWITCH, true, fingerprint, receiptToken))
    ensures !Presentable(KillSwitch(LONG_SWITCH, false, fingerprint, receiptToken))
  {
    assert LONG_SWITCH[0] == 'a';
    hide Presentable;
    PresentableExactly(KillSwitch(LONG_SWITCH, true, fingerprint, receiptToken));
    PresentableExactly(KillSwitch(LONG_SWITCH, false, fingerprint, receiptToken));
  }

  lemma PrefixIsSafe(r: Request, i: nat)
    requires i < |Prefix(r)|
    ensures Alphanumeric(Prefix(r)[i]) || Prefix(r)[i] in "._:-"
  {
  }

  lemma SuffixIsSafe(r: Request, i: nat)
    requires i < |Suffix(r)|
    ensures Alphanumeric(Suffix(r)[i]) || Suffix(r)[i] in "._:-"
  {
  }
}
