/** Container Device Interface names and the per-claim specification. */
module Cdi {
  import opened Text
  import opened Claims

  const COMMON := "common"

  /** `vendor/class`, the Kind of the Container Device Interface specification. */
  function Kind(driver: Driver): string {
    "k8s." + driver.name + "/" + driver.profile
  }

  /** `vendor/class=name`. */
  function QualifiedName(driver: Driver, name: string): string {
    Kind(driver) + "=" + name
  }

  function DeviceName(uid: UID, device: string): string {
    uid + "-" + device
  }

  function EnvKey(device: string): string {
    Upper(Collapse(device, false))
  }

  datatype CdiDevice = CdiDevice(name: string, env: seq<string>, mounts: seq<Mount>)

  datatype Spec = Spec(kind: string, devices: seq<CdiDevice>)

  function ClaimDeviceIds(driver: Driver, uid: UID, devices: seq<string>): (ids: seq<string>)
    ensures |ids| == |devices| + 1
  {
    [QualifiedName(driver, COMMON)]
    + seq(|devices|, i requires 0 <= i < |devices| => QualifiedName(driver, DeviceName(uid, devices[i])))
  }

  method GetClaimDevices(driver: Driver, uid: UID, devices: seq<string>) returns (cdiDevices: seq<string>)
    ensures cdiDevices == ClaimDeviceIds(driver, uid, devices)
  {
    cdiDevices := [QualifiedName(driver, COMMON)];
    for i := 0 to |devices|
      invariant cdiDevices == ClaimDeviceIds(driver, uid, devices[..i])
    {
      cdiDevices := cdiDevices + [QualifiedName(driver, DeviceName(uid, devices[i]))];
    }
    assert devices[..|devices|] == devices;
  }

  function SpecDevice(driver: Driver, uid: UID, prepared: PreparedDevice): CdiDevice {
    var claimEnv := [
      Upper(driver.profile) + "_DEVICE_" + EnvKey(prepared.device.name) + "_RESOURCE_CLAIM=" + uid,
      "DRA_ADMIN_ACCESS=" + (if prepared.adminAccess then "true" else "false")];
    match prepared.edits
    case None => CdiDevice(DeviceName(uid, prepared.device.name), claimEnv, [])
    case Some(edits) => CdiDevice(DeviceName(uid, prepared.device.name), claimEnv + edits.env, edits.mounts)
  }

  function ClaimSpec(driver: Driver, uid: UID, prepared: seq<PreparedDevice>): (spec: Spec)
    ensures |spec.devices| == |prepared|
  {
    Spec(Kind(driver), seq(|prepared|, i requires 0 <= i < |prepared| => SpecDevice(driver, uid, prepared[i])))
  }

  method BuildClaimSpec(driver: Driver, uid: UID, prepared: seq<PreparedDevice>) returns (spec: Spec)
    ensures spec == ClaimSpec(driver, uid, prepared)
  {
    var devices: seq<CdiDevice> := [];
    for i := 0 to |prepared|
      invariant devices == ClaimSpec(driver, uid, prepared[..i]).devices
    {
      var device := prepared[i];
      var deviceEnvKey := EnvKey(device.device.name);
      var env := [
        Upper(driver.profile) + "_DEVICE_" + deviceEnvKey + "_RESOURCE_CLAIM=" + uid,
        "DRA_ADMIN_ACCESS=" + (if device.adminAccess then "true" else "false")];
      var mounts: seq<Mount> := [];
      if device.edits.Some? {
        env := env + device.edits.value.env;
        mounts := device.edits.value.mounts;
      }
      devices := devices + [CdiDevice(DeviceName(uid, device.device.name), env, mounts)];
    }
    assert prepared[..|prepared|] == prepared;
    return Spec(Kind(driver), devices);
  }

  /** Two specifications that differ at most in the order of their devices. */
  ghost predicate SameSpec(a: Spec, b: Spec) {
    a.kind == b.kind && multiset(a.devices) == multiset(b.devices)
  }

  /** Every identifier that is not the common one is the kind of `spec` and a device in it. */
  ghost predicate Resolves(ids: seq<string>, spec: Spec) {
    forall i :: 1 <= i < |ids| ==> exists d :: d in spec.devices && ids[i] == spec.kind + "=" + d.name
  }

  /** Between claim identifiers of one length, as in the text form of section 4 of RFC 9562,
      a CDI device name determines the claim and the device. */
  lemma DeviceNameInjective(uid: UID, device: string, uid': UID, device': string)
    requires |uid| == |uid'|
    requires DeviceName(uid, device) == DeviceName(uid', device')
    ensures uid == uid' && device == device'
  {
    var name := DeviceName(uid, device);
    assert uid == name[..|uid|] == uid';
    assert device == name[|uid| + 1..] == device';
  }

  lemma QualifiedNameInjective(driver: Driver, name: string, name': string)
    requires QualifiedName(driver, name) == QualifiedName(driver, name')
    ensures name == name'
  {
    var n := |Kind(driver)| + 1;
    assert name == QualifiedName(driver, name)[n..] && name' == QualifiedName(driver, name')[n..];
  }

  /** So no two devices of any claims share a CDI identifier, and none has the common one. */
  lemma DeviceIdInjective(driver: Driver, uid: UID, device: string, uid': UID, device': string)
    requires |uid| == |uid'|
    ensures QualifiedName(driver, DeviceName(uid, device)) == QualifiedName(driver, DeviceName(uid', device')) ==>
        uid == uid' && device == device'
    ensures QualifiedName(driver, DeviceName(uid, device)) != QualifiedName(driver, COMMON)
  {
    if QualifiedName(driver, DeviceName(uid, device)) == QualifiedName(driver, DeviceName(uid', device')) {
      QualifiedNameInjective(driver, DeviceName(uid, device), DeviceName(uid', device'));
      DeviceNameInjective(uid, device, uid', device');
    }
    assert '-' !in COMMON && DeviceName(uid, device)[|uid|] == '-';
    if QualifiedName(driver, DeviceName(uid, device)) == QualifiedName(driver, COMMON) {
      QualifiedNameInjective(driver, DeviceName(uid, device), COMMON);
    }
  }

  // ---- environment keys ----

  /** The characters of a device name: a lower-case letter, a digit or a dash. */
  predicate IsPlainChar(c: char) {
    'a' <= c <= 'z' || '0' <= c <= '9' || c == '-'
  }

  predicate IsPlain(name: string) {
    forall i :: 0 <= i < |name| ==> IsPlainChar(name[i])
  }

  /** The name with every run of dashes read as one; `inRun` as for `Collapse`. */
  function Squeeze(name: string, inRun: bool): string {
    if name == "" then ""
    else if name[0] != '-' then [name[0]] + Squeeze(name[1..], false)
    else if inRun then Squeeze(name[1..], true)
    else "-" + Squeeze(name[1..], true)
  }

  function Underscore(c: char): char {
    if c == '-' then '_' else c
  }

  lemma {:induction false} CollapseIsSqueeze(name: string, inRun: bool)
    requires IsPlain(name)
    ensures IsPlain(Squeeze(name, inRun)) && |Collapse(name, inRun)| == |Squeeze(name, inRun)|
    ensures forall i ::
        0 <= i < |Squeeze(name, inRun)| ==> Collapse(name, inRun)[i] == Underscore(Squeeze(name, inRun)[i])
  {
    if name != "" {
      CollapseIsSqueeze(name[1..], name[0] == '-');
    }
  }

  /** Exactly when two device names have the same environment key: when they differ at most in the
      length of runs of dashes. */
  lemma EnvKeysCollideIff(a: string, b: string)
    requires IsPlain(a) && IsPlain(b)
    ensures EnvKey(a) == EnvKey(b) <==> Squeeze(a, false) == Squeeze(b, false)
  {
    CollapseIsSqueeze(a, false);
    CollapseIsSqueeze(b, false);
    var x, y := Squeeze(a, false), Squeeze(b, false);
    if EnvKey(a) == EnvKey(b) {
      assert |x| == |y|;
      forall i | 0 <= i < |x| ensures x[i] == y[i] {
        assert EnvKey(a)[i] == UpperChar(Underscore(x[i])) && EnvKey(b)[i] == UpperChar(Underscore(y[i]));
        assert IsPlainChar(x[i]) && IsPlainChar(y[i]);
      }
    }
    if x == y {
      assert Collapse(a, false) == Collapse(b, false);
    }
  }
}
