/** The form of frontend/src/components/AddDeviceModal.jsx: its fields and
    defaults, the MAC-address pattern, and the submit and change handlers.
    Submitting waits for the store's `addDevice`, so it is split at that
    point into `BeginSubmit` and `FinishSubmit`. */
module AddDeviceModal {
  import opened Models
  import opened Text
  import opened DataStore

  // ---------------------------------------------------------------- MAC

  /** `[0-9A-Fa-f]{2}` */
  predicate HexPair(s: string)
  {
    |s| == 2 && IsHexDigit(s[0]) && IsHexDigit(s[1])
  }

  /** `[:-]` */
  predicate IsSeparator(c: char)
  {
    c == ':' || c == '-'
  }

  /** `([0-9A-Fa-f]{2}[:-]){n}([0-9A-Fa-f]{2})$` at the start of `s`: `n`
      pairs each followed by a separator, then a last pair ending the text. */
  predicate Groups(s: string, n: nat)
    decreases n
  {
    if n == 0 then HexPair(s)
    else |s| >= 3 && HexPair(s[..2]) && IsSeparator(s[2]) && Groups(s[3..], n - 1)
  }

  /** `macRegex.test(s)` with `macRegex = /^([0-9A-Fa-f]{2}[:-]){5}([0-9A-Fa-f]{2})$/`. */
  predicate IsMac(s: string)
  {
    Groups(s, 5)
  }

  /** Position by position: a hex digit (either case) everywhere except at
      every third place, where a ':' or a '-' stands. */
  predicate Laid(s: string)
  {
    forall i :: 0 <= i < |s| ==> if i % 3 == 2 then IsSeparator(s[i]) else IsHexDigit(s[i])
  }

  lemma {:induction false} GroupsLaid(s: string, n: nat)
    ensures Groups(s, n) <==> |s| == 3 * n + 2 && Laid(s)
  {
    if n > 0 && |s| >= 3 {
      GroupsLaid(s[3..], n - 1);
      if Laid(s) {
        forall i | 0 <= i < |s[3..]|
          ensures if i % 3 == 2 then IsSeparator(s[3..][i]) else IsHexDigit(s[3..][i])
        {
          assert s[3..][i] == s[i + 3] && (i + 3) % 3 == i % 3;
        }
      }
      if HexPair(s[..2]) && IsSeparator(s[2]) && Laid(s[3..]) {
        forall i | 0 <= i < |s|
          ensures if i % 3 == 2 then IsSeparator(s[i]) else IsHexDigit(s[i])
        {
          if i >= 3 {
            assert s[i] == s[3..][i - 3] && (i - 3) % 3 == i % 3;
          } else if i < 2 {
            assert s[i] == s[..2][i];
          }
        }
      }
    }
  }

  /** A MAC is accepted exactly when it is 17 characters long: six pairs of
      hex digits joined by five separators, each ':' or '-' on its own. */
  lemma MacIff(s: string)
    ensures IsMac(s) <==> |s| == 17 && Laid(s)
  {
    GroupsLaid(s, 5);
  }

  /** Pairs joined by separators: `p0 s0 p1 s1 ... pn`. */
  function Interleave(pairs: seq<string>, seps: seq<char>): string
    requires |pairs| == |seps| + 1
    decreases |seps|
  {
    if seps == [] then pairs[0]
    else pairs[0] + [seps[0]] + Interleave(pairs[1..], seps[1..])
  }

  /** The separators need not agree: any six pairs of hex digits joined by
      any five separators, each ':' or '-' on its own, are accepted. */
  lemma {:induction false} SeparatorsIndependent(pairs: seq<string>, seps: seq<char>)
    requires |pairs| == |seps| + 1
    requires forall i :: 0 <= i < |pairs| ==> HexPair(pairs[i])
    requires forall j :: 0 <= j < |seps| ==> IsSeparator(seps[j])
    ensures Groups(Interleave(pairs, seps), |seps|)
    ensures |seps| == 5 ==> IsMac(Interleave(pairs, seps))
    decreases |seps|
  {
    if seps != [] {
      SeparatorsIndependent(pairs[1..], seps[1..]);
      var s := Interleave(pairs, seps);
      var rest := Interleave(pairs[1..], seps[1..]);
      assert s == pairs[0] + [seps[0]] + rest;
      assert s[..2] == pairs[0] && s[2] == seps[0] && s[3..] == rest;
    }
  }

  /** A sixth separator at the end makes an address too long. */
  lemma TrailingSeparatorRejected()
    ensures !IsMac("00:1A:2B:3C:4D:5E:")
  {
    MacIff("00:1A:2B:3C:4D:5E:");
  }

  // --------------------------------------------------------------- form

  datatype DeviceForm = DeviceForm(deviceId: string, name: string, zone: string, macAddress: string, status: string)

  /** The form as it opens and after a successful save. */
  const DefaultForm := DeviceForm("", "", "Library", "", "offline")

  datatype Field = DeviceIdField | NameField | ZoneField | MacField | StatusField

  function Get(f: DeviceForm, key: Field): string
  {
    match key
    case DeviceIdField => f.deviceId
    case NameField => f.name
    case ZoneField => f.zone
    case MacField => f.macAddress
    case StatusField => f.status
  }

  /** `{ ...formData, [key]: value }`: the named field takes the value and
      every other field keeps its own. */
  function WithField(f: DeviceForm, key: Field, value: string): (r: DeviceForm)
    ensures Get(r, key) == value
    ensures forall k :: k != key ==> Get(r, k) == Get(f, k)
  {
    match key
    case DeviceIdField => f.(deviceId := value)
    case NameField => f.(name := value)
    case ZoneField => f.(zone := value)
    case MacField => f.(macAddress := value)
    case StatusField => f.(status := value)
  }

  const InvalidMac := "Invalid MAC Address. Format: 00:1A:2B:3C:4D:5E"
  const AddFailed := "Failed to add device. ID might be duplicate."

  /** The modal's state: the form, the error banner ("" when none), the
      saving flag, and whether it is still open. */
  class Modal {
    var form: DeviceForm
    var error: string
    var loading: bool
    var open: bool

    constructor ()
      ensures form == DefaultForm && error == "" && !loading && open
    {
      form := DefaultForm;
      error := "";
      loading := false;
      open := true;
    }

    /** `handleChange(key, value)`: clears the error and changes only the
        named field. */
    method HandleChange(key: Field, value: string)
      modifies this
      ensures error == "" && form == WithField(old(form), key, value)
      ensures loading == old(loading) && open == old(open)
    {
      error := "";
      form := WithField(form, key, value);
    }

    /** `handleSubmit` up to the store call: an address that fails the
        pattern sets the error and stops, with no request made (`sent` is
        false); otherwise the error is cleared, `loading` is raised and the
        form goes to the store. */
    method BeginSubmit() returns (sent: bool)
      modifies this
      ensures sent == IsMac(old(form).macAddress)
      ensures !sent ==> error == InvalidMac && loading == old(loading)
      ensures sent ==> error == "" && loading
      ensures form == old(form) && open == old(open)
    {
      error := "";
      if !IsMac(form.macAddress) {
        error := InvalidMac;
        return false;
      }
      loading := true;
      sent := true;
    }

    /** `handleSubmit` after the store's `addDevice`: on success the form is
        reset to its defaults and the modal closes; on failure the error is
        set and the form keeps what was typed.  `loading` ends lowered. */
    method FinishSubmit(store: Store, response: Option<Doc<Device>>)
      modifies this, store
      ensures !loading
      ensures response.Some? ==> form == DefaultForm && !open && error == old(error)
      ensures response.None? ==> form == old(form) && open == old(open) && error == AddFailed
      ensures store.devices == if response.Some? then old(store.devices) + [response.value] else old(store.devices)
      ensures store.users == old(store.users) && store.alerts == old(store.alerts)
      ensures store.trafficLogs == old(store.trafficLogs) && store.loading == old(store.loading)
    {
      var success := store.AddDevice(response);
      loading := false;
      if success {
        form := DefaultForm;
        open := false;
      } else {
        error := AddFailed;
      }
    }
  }
}
