/**
 * The connection-time helpers of the relay server: the client address taken
 * from proxy headers or the socket, and the device guessed from the
 * User-Agent header. Both are pure string functions.
 */
module ClientInfo {
  import opened Wrappers
  import opened Text

  /** The two proxy headers consulted, None when absent. */
  datatype Headers = Headers(forwardedFor: Option<string>, realIp: Option<string>)

  /** JavaScript truthiness of an optional header value: present and not empty. */
  predicate Truthy(h: Option<string>)
  {
    h.Some? && h.value != ""
  }

  /**
   * getClientIP: the first hop of `x-forwarded-for`, trimmed; else `x-real-ip`
   * as it is; else the socket address with its first "::ffff:" removed and
   * then its first "::1" replaced by "127.0.0.1".
   */
  function ClientIP(h: Headers, address: string): (ip: string)
    ensures Truthy(h.forwardedFor) ==> ',' !in ip && (ip != [] ==> !IsJsSpace(ip[0]) && !IsJsSpace(ip[|ip| - 1]))
    ensures !Truthy(h.forwardedFor) && Truthy(h.realIp) ==> ip == h.realIp.value
    ensures !Truthy(h.forwardedFor) && !Truthy(h.realIp) ==>
      ip == ReplaceFirst(ReplaceFirst(address, "::ffff:", ""), "::1", "127.0.0.1")
  {
    if Truthy(h.forwardedFor) then
      var hop := FirstSegment(h.forwardedFor.value, ',');
      var ip := Trim(hop);
      assert ',' !in ip by {
        var (i, j) := TrimBounds(hop);
        forall k | 0 <= k < |ip| ensures ip[k] != ',' { assert ip[k] == hop[i + k]; }
      }
      ip
    else if Truthy(h.realIp) then h.realIp.value
    else ReplaceFirst(ReplaceFirst(address, "::ffff:", ""), "::1", "127.0.0.1")
  }

  /**
   * With `x-forwarded-for` present, the address is the slice of that header
   * from its first non-blank character up to the end of its first
   * comma-separated segment, less trailing blanks; the other inputs play no part.
   */
  lemma ForwardedForFirstHop(h: Headers, address: string, h': Headers, address': string)
    requires Truthy(h.forwardedFor) && h'.forwardedFor == h.forwardedFor
    ensures var x := h.forwardedFor.value; var hop := FirstSegment(x, ','); var (i, j) := TrimBounds(hop);
      ClientIP(h, address) == x[i..j] && AllSpace(x[..i]) && AllSpace(x[j..|hop|]) &&
      (|hop| < |x| ==> x[|hop|] == ',')
    ensures ClientIP(h, address) == ClientIP(h', address')
  {
    var x := h.forwardedFor.value;
    var hop := FirstSegment(x, ',');
    var (i, j) := TrimBounds(hop);
    assert hop == x[..|hop|];
    assert x[i..j] == hop[i..j];
    assert x[..i] == hop[..i];
    assert x[j..|hop|] == hop[j..];
  }

  /** An IPv4-mapped IPv6 socket address is reported as the bare IPv4 address. */
  lemma MappedAddressUnwrapped(h: Headers, v4: string)
    requires !Truthy(h.forwardedFor) && !Truthy(h.realIp)
    requires !Contains(v4, "::1")
    ensures ClientIP(h, "::ffff:" + v4) == v4
  {
    var a := "::ffff:" + v4;
    assert OccursAt(a, "::ffff:", 0) by { assert a[0..7] == "::ffff:"; }
    OccurrenceContains(a, "::ffff:", 0);
    assert ReplaceFirst(a, "::ffff:", "") == v4 by {
      assert IndexOf(a, "::ffff:") == Some(0);
      assert a[7..] == v4;
    }
  }

  /** The IPv6 loopback address becomes "127.0.0.1". */
  lemma LoopbackRenamed(h: Headers)
    requires !Truthy(h.forwardedFor) && !Truthy(h.realIp)
    ensures ClientIP(h, "::1") == "127.0.0.1"
  {
    MissingCharNotContained("::1", "::ffff:", 'f');
    assert OccursAt("::1", "::1", 0) by { assert "::1"[0..3] == "::1"; }
    OccurrenceContains("::1", "::1", 0);
    assert IndexOf("::1", "::1") == Some(0);
    assert "::1"[..0] + "127.0.0.1" + "::1"[3..] == "127.0.0.1";
  }

  // ----- parseUserAgent -----

  /** The `{device, icon}` record parseUserAgent returns. */
  datatype DeviceInfo = DeviceInfo(device: string, icon: string)

  const PHONE: string := "\U{1F4F1}"
  const LAPTOP: string := "\U{1F4BB}"
  const DESKTOP: string := "\U{1F5A5}\U{FE0F}"
  const PENGUIN: string := "\U{1F427}"

  /** The families parseUserAgent tells apart, tried in this order. */
  datatype Family = IPhone | IPad | Android | Mac | Windows | Linux | ChromeOS | NoFamily

  /** The family whose marker occurs first in the fixed priority order, on the lower-cased agent. */
  function FamilyOf(lower: string): Family
  {
    if Contains(lower, "iphone") then IPhone
    else if Contains(lower, "ipad") then IPad
    else if Contains(lower, "android") then Android
    else if Contains(lower, "macintosh") || Contains(lower, "mac os") then Mac
    else if Contains(lower, "windows") then Windows
    else if Contains(lower, "linux") then Linux
    else if Contains(lower, "cros") then ChromeOS
    else NoFamily
  }

  /** The icon every device of a family gets. */
  function FamilyIcon(f: Family): string
  {
    match f
    case IPhone | IPad | Android => PHONE
    case Windows => DESKTOP
    case Linux => PENGUIN
    case Mac | ChromeOS | NoFamily => LAPTOP
  }

  /** The device names a family can produce. */
  function FamilyDevices(f: Family): set<string>
  {
    match f
    case IPhone => {"iPhone 13 Pro", "iPhone 13 Pro Max", "iPhone 14", "iPhone 15", "iPhone"}
    case IPad => {"iPad Pro", "iPad"}
    case Android => {"Samsung Galaxy S23", "Samsung Galaxy S22", "Samsung Galaxy", "Samsung",
                     "Xiaomi Redmi", "Xiaomi POCO", "Xiaomi", "OPPO", "Vivo", "Huawei", "OnePlus",
                     "Google Pixel", "Android Tablet", "Android"}
    case Mac => {"MacBook (Catalina)", "MacBook (Big Sur)", "MacBook (Monterey)", "MacBook (Ventura)",
                 "MacBook (Sonoma)", "Mac"}
    case Windows => {"Windows 10/11 PC", "Windows 10/11", "Windows 8.1", "Windows 7", "Windows PC"}
    case Linux => {"Ubuntu Linux", "Fedora Linux", "Linux"}
    case ChromeOS => {"Chromebook"}
    case NoFamily => {"Unknown Device"}
  }

  /** An Android agent that names none of the vendors parseUserAgent knows. */
  predicate GenericAndroid(lower: string)
  {
    FamilyOf(lower) == Android &&
    !(Contains(lower, "samsung") || Contains(lower, "sm-")) &&
    !(Contains(lower, "xiaomi") || Contains(lower, "redmi") || Contains(lower, "poco")) &&
    !Contains(lower, "oppo") && !Contains(lower, "vivo") && !Contains(lower, "huawei") &&
    !Contains(lower, "oneplus") && !Contains(lower, "pixel")
  }

  /**
   * The iPhone model as the server code decides it. The test for
   * "iPhone 13 Pro Max" never fires: an agent containing it contains
   * "iPhone 13 Pro" too, which the branch before already accepts.
   */
  function IPhoneModelAsWritten(ua: string, lower: string): (device: string)
    ensures device in FamilyDevices(IPhone)
  {
    if Contains(ua, "iPhone14,2") || Contains(ua, "iPhone 13 Pro") then "iPhone 13 Pro"
    else if Contains(ua, "iPhone14,3") || Contains(ua, "iPhone 13 Pro Max") then "iPhone 13 Pro Max"
    else if Contains(ua, "iPhone15") || Contains(lower, "iphone 14") then "iPhone 14"
    else if Contains(ua, "iPhone16") || Contains(lower, "iphone 15") then "iPhone 15"
    else "iPhone"
  }

  /** The agent string of an iPhone 13 Pro Max is reported as an iPhone 13 Pro. */
  lemma ProMaxReportedAsPro()
    ensures IPhoneModelAsWritten("iPhone 13 Pro Max", "iphone 13 pro max") == "iPhone 13 Pro"
  {
    var ua := "iPhone 13 Pro Max";
    assert OccursAt(ua, "iPhone 13 Pro", 0) by { assert ua[0..13] == "iPhone 13 Pro"; }
    OccurrenceContains(ua, "iPhone 13 Pro", 0);
  }

  /** The iPhone model with the "Pro Max" name tested before the plain "Pro" name. */
  function IPhoneModel(ua: string, lower: string): (device: string)
    ensures device in FamilyDevices(IPhone)
    ensures Contains(ua, "iPhone 13 Pro Max") && !Contains(ua, "iPhone14,2") ==> device == "iPhone 13 Pro Max"
    ensures !Contains(ua, "iPhone 13 Pro Max") ==> device == IPhoneModelAsWritten(ua, lower)
  {
    if Contains(ua, "iPhone14,2") || (Contains(ua, "iPhone 13 Pro") && !Contains(ua, "iPhone 13 Pro Max")) then "iPhone 13 Pro"
    else if Contains(ua, "iPhone14,3") || Contains(ua, "iPhone 13 Pro Max") then "iPhone 13 Pro Max"
    else if Contains(ua, "iPhone15") || Contains(lower, "iphone 14") then "iPhone 14"
    else if Contains(ua, "iPhone16") || Contains(lower, "iphone 15") then "iPhone 15"
    else "iPhone"
  }

  /** A Pro Max agent is now reported as such. */
  lemma ProMaxReported()
    ensures IPhoneModel("iPhone 13 Pro Max", "iphone 13 pro max") == "iPhone 13 Pro Max"
  {
    var ua := "iPhone 13 Pro Max";
    assert OccursAt(ua, "iPhone 13 Pro Max", 0) by { assert ua[0..17] == "iPhone 13 Pro Max"; }
    OccurrenceContains(ua, "iPhone 13 Pro Max", 0);
    MissingCharNotContained(ua, "iPhone14,2", ',');
  }

  /** parseUserAgent below the iPhone and iPad branches: the Android vendors. */
  function AndroidModel(lower: string): (device: string)
    ensures device in FamilyDevices(Android)
  {
    if Contains(lower, "samsung") || Contains(lower, "sm-") then
      if Contains(lower, "sm-s9") || Contains(lower, "galaxy s23") then "Samsung Galaxy S23"
      else if Contains(lower, "sm-s8") || Contains(lower, "galaxy s22") then "Samsung Galaxy S22"
      else if Contains(lower, "galaxy") then "Samsung Galaxy"
      else "Samsung"
    else if Contains(lower, "xiaomi") || Contains(lower, "redmi") || Contains(lower, "poco") then
      if Contains(lower, "redmi") then "Xiaomi Redmi"
      else if Contains(lower, "poco") then "Xiaomi POCO"
      else "Xiaomi"
    else if Contains(lower, "oppo") then "OPPO"
    else if Contains(lower, "vivo") then "Vivo"
    else if Contains(lower, "huawei") then "Huawei"
    else if Contains(lower, "oneplus") then "OnePlus"
    else if Contains(lower, "pixel") then "Google Pixel"
    else if Contains(lower, "tablet") || (Contains(lower, "android") && !Contains(lower, "mobile")) then "Android Tablet"
    else "Android"
  }

  function MacModel(lower: string): (device: string)
    ensures device in FamilyDevices(Mac)
  {
    if Contains(lower, "mac os x 10_15") || Contains(lower, "macos 10.15") then "MacBook (Catalina)"
    else if Contains(lower, "mac os x 11") || Contains(lower, "macos 11") then "MacBook (Big Sur)"
    else if Contains(lower, "mac os x 12") || Contains(lower, "macos 12") then "MacBook (Monterey)"
    else if Contains(lower, "mac os x 13") || Contains(lower, "macos 13") then "MacBook (Ventura)"
    else if Contains(lower, "mac os x 14") || Contains(lower, "macos 14") then "MacBook (Sonoma)"
    else "Mac"
  }

  function WindowsModel(lower: string): (device: string)
    ensures device in FamilyDevices(Windows)
  {
    if Contains(lower, "windows nt 10.0") then
      if Contains(lower, "win64") || Contains(lower, "wow64") then "Windows 10/11 PC" else "Windows 10/11"
    else if Contains(lower, "windows nt 6.3") then "Windows 8.1"
    else if Contains(lower, "windows nt 6.1") then "Windows 7"
    else "Windows PC"
  }

  function LinuxModel(lower: string): (device: string)
    ensures device in FamilyDevices(Linux)
  {
    if Contains(lower, "ubuntu") then "Ubuntu Linux"
    else if Contains(lower, "fedora") then "Fedora Linux"
    else "Linux"
  }

  /**
   * The family-by-family decision of parseUserAgent on the lower-cased agent,
   * given the device name its iPhone branch settles on.
   */
  function Classify(lower: string, iphone: string): (d: DeviceInfo)
    requires iphone in FamilyDevices(IPhone)
    ensures d.icon == FamilyIcon(FamilyOf(lower)) && d.device in FamilyDevices(FamilyOf(lower))
    ensures FamilyOf(lower) == IPhone ==> d.device == iphone
    ensures GenericAndroid(lower) ==>
      (d.device == "Android Tablet" <==> Contains(lower, "tablet") || !Contains(lower, "mobile"))
  {
    if Contains(lower, "iphone") then DeviceInfo(iphone, PHONE)
    else if Contains(lower, "ipad") then
      DeviceInfo(if Contains(lower, "ipad pro") then "iPad Pro" else "iPad", PHONE)
    else if Contains(lower, "android") then DeviceInfo(AndroidModel(lower), PHONE)
    else if Contains(lower, "macintosh") || Contains(lower, "mac os") then DeviceInfo(MacModel(lower), LAPTOP)
    else if Contains(lower, "windows") then DeviceInfo(WindowsModel(lower), DESKTOP)
    else if Contains(lower, "linux") then DeviceInfo(LinuxModel(lower), PENGUIN)
    else if Contains(lower, "cros") then DeviceInfo("Chromebook", LAPTOP)
    else DeviceInfo("Unknown Device", LAPTOP)
  }

  /**
   * parseUserAgent, as the server code decides it: an empty agent is
   * "Unknown"; otherwise the family is the first of iPhone, iPad, Android,
   * Mac, Windows, Linux, Chrome OS whose marker the lower-cased agent
   * contains, the icon is the family's and the device one of the family's
   * names; an iPhone's model comes from the chain as written. (undefined is
   * passed as "" by the caller.)
   */
  function ParseUserAgent(ua: string): (d: DeviceInfo)
    ensures ua == "" ==> d == DeviceInfo("Unknown", LAPTOP)
    ensures ua != "" ==> d.icon == FamilyIcon(FamilyOf(ToLower(ua)))
    ensures ua != "" ==> d.device in FamilyDevices(FamilyOf(ToLower(ua)))
    ensures ua != "" && FamilyOf(ToLower(ua)) == IPhone ==> d.device == IPhoneModelAsWritten(ua, ToLower(ua))
    ensures ua != "" && GenericAndroid(ToLower(ua)) ==>
      (d.device == "Android Tablet" <==> Contains(ToLower(ua), "tablet") || !Contains(ToLower(ua), "mobile"))
  {
    if ua == "" then DeviceInfo("Unknown", LAPTOP)
    else
      var lower := ToLower(ua);
      Classify(lower, IPhoneModelAsWritten(ua, lower))
  }

  /**
   * parseUserAgent with the corrected iPhone chain: it differs from the
   * server's only on agents that name the iPhone 13 Pro Max.
   */
  function ParseUserAgentCorrected(ua: string): (d: DeviceInfo)
    ensures !Contains(ua, "iPhone 13 Pro Max") ==> d == ParseUserAgent(ua)
    ensures d.icon == ParseUserAgent(ua).icon
    ensures ua != "" && FamilyOf(ToLower(ua)) == IPhone ==> d.device == IPhoneModel(ua, ToLower(ua))
  {
    if ua == "" then DeviceInfo("Unknown", LAPTOP)
    else
      var lower := ToLower(ua);
      Classify(lower, IPhoneModel(ua, lower))
  }

  /** An agent with "iPhone" somewhere has "iphone" in its lower case. */
  lemma LowerKeepsIPhone(ua: string, i: nat)
    requires OccursAt(ua, "iPhone", i)
    ensures Contains(ToLower(ua), "iphone")
  {
    LowerOccurs(ua, "iPhone", i);
    LowerIPhone();
    OccurrenceContains(ToLower(ua), "iphone", |ToLower(ua[..i])|);
  }

  /**
   * The whole of parseUserAgent reports every Pro Max agent without the
   * "iPhone14,2" code as a Pro; the corrected one reports it as a Pro Max.
   */
  lemma ProMaxParsed(ua: string)
    requires Contains(ua, "iPhone 13 Pro Max") && !Contains(ua, "iPhone14,2")
    ensures ParseUserAgent(ua).device == "iPhone 13 Pro"
    ensures ParseUserAgentCorrected(ua).device == "iPhone 13 Pro Max"
  {
    var i := IndexOf(ua, "iPhone 13 Pro Max").value;
    assert ua[i..i + 17] == "iPhone 13 Pro Max";
    assert ua[i..i + 6] == "iPhone 13 Pro Max"[..6] == "iPhone";
    assert OccursAt(ua, "iPhone", i);
    LowerKeepsIPhone(ua, i);
    assert ua[i..i + 13] == "iPhone 13 Pro Max"[..13] == "iPhone 13 Pro";
    OccurrenceContains(ua, "iPhone 13 Pro", i);
    var lower := ToLower(ua);
    assert IPhoneModelAsWritten(ua, lower) == "iPhone 13 Pro";
    assert IPhoneModel(ua, lower) == "iPhone 13 Pro Max";
  }

  /** An agent naming both Android and Linux (every Android browser does) is classified as Android. */
  lemma AndroidBeforeLinux(ua: string)
    requires ua != ""
    requires Contains(ToLower(ua), "android") && !Contains(ToLower(ua), "iphone") && !Contains(ToLower(ua), "ipad")
    ensures ParseUserAgent(ua).icon == PHONE
    ensures ParseUserAgent(ua).device in FamilyDevices(Android)
  {
  }

  /** An agent matching no family is an "Unknown Device" with the laptop icon. */
  lemma NoFamilyUnknown(ua: string)
    requires ua != "" && FamilyOf(ToLower(ua)) == NoFamily
    ensures ParseUserAgent(ua) == DeviceInfo("Unknown Device", LAPTOP)
  {
  }
}
