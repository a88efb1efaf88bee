/**
 * Physical-device selection: the queue-family scan, the de-duplicated list
 * of queues to create, the extension checks and the suitability test.  A
 * physical device is represented by what the driver reports about it.
 */
module DeviceSelection {
  import opened Vk
  import opened Utilities

  // ---------------------------------------------------------------------
  // Queue families

  /** The two roles the renderer needs a queue family for. */
  datatype Role = Graphics | Presentation

  /** The family has at least one queue and can serve the role. */
  predicate Qualifies(role: Role, f: QueueFamily) {
    f.queueCount > 0 &&
    match role
    case Graphics => f.queueFlags & QUEUE_GRAPHICS_BIT != 0
    case Presentation => f.presentationSupport
  }

  /**
   * The last family among the first `n` that qualifies for the role, or -1
   * when none of them does.
   */
  function LastQualifying(families: seq<QueueFamily>, role: Role, n: nat): (r: int)
    requires n <= |families|
    ensures -1 <= r < n
    ensures r >= 0 ==> Qualifies(role, families[r])
    ensures forall j :: r < j < n ==> !Qualifies(role, families[j])
  {
    if n == 0 then -1
    else if Qualifies(role, families[n - 1]) then n - 1
    else LastQualifying(families, role, n - 1)
  }

  /** Both roles have a family among the first `n`. */
  predicate BothFound(families: seq<QueueFamily>, n: nat)
    requires n <= |families|
  {
    LastQualifying(families, Graphics, n) >= 0 && LastQualifying(families, Presentation, n) >= 0
  }

  /**
   * How many families the scan looks at: up to and including the first at
   * which both roles have been found, or all of them.
   */
  function ScanLength(families: seq<QueueFamily>, from: nat): (r: nat)
    requires from <= |families|
    requires forall m :: 0 <= m <= from ==> !BothFound(families, m)
    ensures from <= r <= |families|
    ensures r == |families| || BothFound(families, r)
    ensures forall m :: 0 <= m < r ==> !BothFound(families, m)
    decreases |families| - from
  {
    if from == |families| then from
    else if BothFound(families, from + 1) then from + 1
    else ScanLength(families, from + 1)
  }

  /** The prefix length of ScanLength is the only one with its two properties. */
  lemma ScanLengthUnique(families: seq<QueueFamily>, r: nat)
    requires r <= |families|
    requires r == |families| || BothFound(families, r)
    requires forall m :: 0 <= m < r ==> !BothFound(families, m)
    ensures ScanLength(families, 0) == r
  {
  }

  /**
   * What getQueueFamilies returns: for each role, the last qualifying family
   * among those the scan looked at.
   */
  function QueueFamiliesOf(families: seq<QueueFamily>): QueueFamilyIndices {
    var n := ScanLength(families, 0);
    QueueFamilyIndices(LastQualifying(families, Graphics, n), LastQualifying(families, Presentation, n))
  }

  /**
   * getQueueFamilies: scan the families in order, recording the latest
   * graphics and presentation family, and stop as soon as both are set.
   * Each family's presentation support is part of the family record.
   */
  method GetQueueFamilies(families: seq<QueueFamily>) returns (indices: QueueFamilyIndices)
    ensures indices == QueueFamiliesOf(families)
  {
    indices := NewQueueFamilyIndices();
    var i := 0;
    while i < |families|
      invariant i <= |families|
      invariant indices.graphicsFamily == LastQualifying(families, Graphics, i)
      invariant indices.presentationFamily == LastQualifying(families, Presentation, i)
      invariant forall m :: 0 <= m <= i ==> !BothFound(families, m)
    {
      if families[i].queueCount > 0 && families[i].queueFlags & QUEUE_GRAPHICS_BIT != 0 {
        indices := indices.(graphicsFamily := i);
      }
      if families[i].queueCount > 0 && families[i].presentationSupport {
        indices := indices.(presentationFamily := i);
      }
      if indices.IsValid() {
        ScanLengthUnique(families, i + 1);
        return;
      }
      i := i + 1;
    }
    ScanLengthUnique(families, i);
  }

  /**
   * Every index the scan returns is -1 or a family of the list that
   * qualifies for its role, and no later family before the stopping point
   * qualifies for that role.
   */
  lemma QueueFamiliesSound(families: seq<QueueFamily>)
    ensures var indices := QueueFamiliesOf(families);
            var n := ScanLength(families, 0);
            -1 <= indices.graphicsFamily < |families| && -1 <= indices.presentationFamily < |families| &&
            (indices.graphicsFamily >= 0 ==> Qualifies(Graphics, families[indices.graphicsFamily])) &&
            (indices.presentationFamily >= 0 ==> Qualifies(Presentation, families[indices.presentationFamily])) &&
            (forall j :: indices.graphicsFamily < j < n ==> !Qualifies(Graphics, families[j])) &&
            (forall j :: indices.presentationFamily < j < n ==> !Qualifies(Presentation, families[j]))
  {
  }

  /**
   * The scan stops at the first family at which both roles are set: that
   * family is one of the two returned, and before it the roles were never
   * both set.
   */
  lemma QueueFamiliesStopEarly(families: seq<QueueFamily>)
    requires QueueFamiliesOf(families).IsValid()
    ensures var indices := QueueFamiliesOf(families);
            var k := if indices.graphicsFamily >= indices.presentationFamily then indices.graphicsFamily else indices.presentationFamily;
            ScanLength(families, 0) == k + 1 &&
            forall m :: 0 <= m <= k ==> !BothFound(families, m)
  {
    var n := ScanLength(families, 0);
    assert BothFound(families, n);
    var g := LastQualifying(families, Graphics, n);
    var p := LastQualifying(families, Presentation, n);
    var k := if g >= p then g else p;
    if k + 1 < n {
      assert LastQualifying(families, Graphics, k + 1) == g by {
        LastQualifyingOfPrefix(families, Graphics, k + 1, n);
      }
      assert LastQualifying(families, Presentation, k + 1) == p by {
        LastQualifyingOfPrefix(families, Presentation, k + 1, n);
      }
      assert BothFound(families, k + 1);
    }
  }

  /** Cutting the list after the last qualifying family does not change it. */
  lemma {:induction false} LastQualifyingOfPrefix(families: seq<QueueFamily>, role: Role, m: nat, n: nat)
    requires m <= n <= |families|
    requires LastQualifying(families, role, n) < m
    ensures LastQualifying(families, role, m) == LastQualifying(families, role, n)
    decreases n - m
  {
    if m < n {
      assert !Qualifies(role, families[n - 1]);
      LastQualifyingOfPrefix(families, role, m, n - 1);
    }
  }

  /** A role is found by the scan exactly when some family qualifies for it. */
  lemma {:induction false} FoundIffExists(families: seq<QueueFamily>, role: Role, n: nat)
    requires n <= |families|
    ensures LastQualifying(families, role, n) >= 0 <==> exists j :: 0 <= j < n && Qualifies(role, families[j])
  {
    var r := LastQualifying(families, role, n);
    if r >= 0 {
      assert Qualifies(role, families[r]);
    }
  }

  /**
   * The returned indices are valid exactly when some family can do
   * graphics and some family can present.
   */
  lemma QueueFamiliesValidIff(families: seq<QueueFamily>)
    ensures QueueFamiliesOf(families).IsValid() <==>
      (exists i :: 0 <= i < |families| && Qualifies(Graphics, families[i])) &&
      (exists j :: 0 <= j < |families| && Qualifies(Presentation, families[j]))
  {
    var n := ScanLength(families, 0);
    FoundIffExists(families, Graphics, |families|);
    FoundIffExists(families, Presentation, |families|);
    if QueueFamiliesOf(families).IsValid() {
      FoundIffExists(families, Graphics, n);
      FoundIffExists(families, Presentation, n);
    }
  }

  // ---------------------------------------------------------------------
  // Queue creation

  /** The std::set<int> {graphics, presentation}, in ascending order. */
  function DistinctFamilies(indices: QueueFamilyIndices): (families: seq<int>)
    ensures forall f :: f in families <==> f == indices.graphicsFamily || f == indices.presentationFamily
    ensures forall a, b :: 0 <= a < b < |families| ==> families[a] < families[b]
  {
    var g, p := indices.graphicsFamily, indices.presentationFamily;
    if g == p then [g] else if g < p then [g, p] else [p, g]
  }

  /** VkDeviceQueueCreateInfo without the priorities. */
  datatype DeviceQueueCreateInfo = DeviceQueueCreateInfo(queueFamilyIndex: u32, queueCount: nat)

  /**
   * The queue-create list of createLogicalDevice: one entry asking for a
   * single queue per distinct family, in ascending family order.
   */
  method QueueCreateInfos(indices: QueueFamilyIndices) returns (infos: seq<DeviceQueueCreateInfo>)
    ensures var families := DistinctFamilies(indices);
            |infos| == |families| &&
            forall k :: 0 <= k < |infos| ==> infos[k] == DeviceQueueCreateInfo(ToU32(families[k]), 1)
  {
    var families := DistinctFamilies(indices);
    infos := [];
    for k := 0 to |families|
      invariant |infos| == k
      invariant forall j :: 0 <= j < k ==> infos[j] == DeviceQueueCreateInfo(ToU32(families[j]), 1)
    {
      infos := infos + [DeviceQueueCreateInfo(ToU32(families[k]), 1)];
    }
  }

  /**
   * One queue-create entry when graphics and presentation share a family,
   * two otherwise; and that is exactly when the swapchain images are owned
   * exclusively.
   */
  lemma QueueCreateCount(indices: QueueFamilyIndices)
    ensures |DistinctFamilies(indices)| == if indices.graphicsFamily == indices.presentationFamily then 1 else 2
    ensures |DistinctFamilies(indices)| == |{indices.graphicsFamily, indices.presentationFamily}|
  {
  }

  // ---------------------------------------------------------------------
  // Extensions

  /** Every requested extension name occurs in the available list. */
  predicate Supports(requested: seq<string>, available: seq<string>) {
    forall name :: name in requested ==> name in available
  }

  /**
   * checkInstanceExtensionSupport: true exactly when every requested
   * instance extension is available.
   */
  method CheckInstanceExtensionSupport(checkExtensions: seq<string>, extensions: seq<string>) returns (supported: bool)
    ensures supported <==> Supports(checkExtensions, extensions)
  {
    var i := 0;
    while i < |checkExtensions|
      invariant i <= |checkExtensions|
      invariant forall k :: 0 <= k < i ==> checkExtensions[k] in extensions
    {
      var hasExtension := false;
      var j := 0;
      while j < |extensions|
        invariant j <= |extensions|
        invariant hasExtension <==> checkExtensions[i] in extensions[..j]
      {
        if checkExtensions[i] == extensions[j] {
          hasExtension := true;
          assert checkExtensions[i] in extensions[..j + 1];
          break;
        }
        assert extensions[..j + 1] == extensions[..j] + [extensions[j]];
        j := j + 1;
      }
      assert hasExtension <==> checkExtensions[i] in extensions by {
        if j == |extensions| {
          assert extensions[..j] == extensions;
        }
      }
      if !hasExtension {
        return false;
      }
      i := i + 1;
    }
    return true;
  }

  /**
   * checkDeviceExtensionSupport: false for a device reporting no extensions,
   * otherwise true exactly when every required device extension is
   * available.  Since the renderer requires at least one extension, the
   * empty-list test changes nothing.
   */
  method CheckDeviceExtensionSupport(extensions: seq<string>) returns (supported: bool)
    ensures supported <==> |extensions| > 0 && Supports(DEVICE_EXTENSIONS, extensions)
    ensures supported <==> Supports(DEVICE_EXTENSIONS, extensions)
  {
    if |extensions| == 0 {
      assert DEVICE_EXTENSIONS[0] !in extensions;
      return false;
    }
    var i := 0;
    while i < |DEVICE_EXTENSIONS|
      invariant i <= |DEVICE_EXTENSIONS|
      invariant forall k :: 0 <= k < i ==> DEVICE_EXTENSIONS[k] in extensions
    {
      var hasExtension := false;
      var j := 0;
      while j < |extensions|
        invariant j <= |extensions|
        invariant hasExtension <==> DEVICE_EXTENSIONS[i] in extensions[..j]
      {
        if DEVICE_EXTENSIONS[i] == extensions[j] {
          hasExtension := true;
        }
        assert extensions[..j + 1] == extensions[..j] + [extensions[j]];
        j := j + 1;
      }
      assert extensions[..j] == extensions;
      if !hasExtension {
        return false;
      }
      i := i + 1;
    }
    return true;
  }

  // ---------------------------------------------------------------------
  // Suitability

  /** What the driver reports about one physical device. */
  datatype PhysicalDevice = PhysicalDevice(
    handle: Handle,
    queueFamilies: seq<QueueFamily>,
    extensions: seq<string>,
    details: SwapchainDetails)

  /**
   * A device is suitable when it has graphics and presentation families,
   * offers the required device extensions, and its surface reports at least
   * one format and one present mode.
   */
  predicate DeviceSuitable(d: PhysicalDevice) {
    QueueFamiliesOf(d.queueFamilies).IsValid() &&
    |d.extensions| > 0 && Supports(DEVICE_EXTENSIONS, d.extensions) &&
    |d.details.presentationModes| > 0 && |d.details.formats| > 0
  }

  /**
   * checkDeviceSuitable.  The surface details are only looked at when the
   * extensions are supported.
   */
  method CheckDeviceSuitable(d: PhysicalDevice) returns (suitable: bool)
    ensures suitable == DeviceSuitable(d)
  {
    var indices := GetQueueFamilies(d.queueFamilies);
    var extensionSupported := CheckDeviceExtensionSupport(d.extensions);
    var swapchainValid := false;
    if extensionSupported {
      swapchainValid := |d.details.presentationModes| > 0 && |d.details.formats| > 0;
    }
    suitable := indices.IsValid() && extensionSupported && swapchainValid;
  }

  /** Position of the first suitable device in enumeration order, or |devices| if none is. */
  function FirstSuitableDevice(devices: seq<PhysicalDevice>): (k: nat)
    ensures k <= |devices|
    ensures k < |devices| ==> DeviceSuitable(devices[k])
    ensures forall j :: 0 <= j < k ==> !DeviceSuitable(devices[j])
  {
    if devices == [] then 0
    else if DeviceSuitable(devices[0]) then 0
    else 1 + FirstSuitableDevice(devices[1..])
  }

  /**
   * A suitable device meets what the rest of initialisation relies on:
   * two in-range queue families that serve their roles, a non-empty format
   * list for chooseBestSurfaceFormat, and the swapchain extension.
   */
  lemma SuitableDeviceUsable(d: PhysicalDevice)
    requires DeviceSuitable(d)
    ensures var indices := QueueFamiliesOf(d.queueFamilies);
            0 <= indices.graphicsFamily < |d.queueFamilies| &&
            0 <= indices.presentationFamily < |d.queueFamilies| &&
            Qualifies(Graphics, d.queueFamilies[indices.graphicsFamily]) &&
            Qualifies(Presentation, d.queueFamilies[indices.presentationFamily])
    ensures |d.details.formats| > 0
    ensures "VK_KHR_swapchain" in d.extensions
  {
    QueueFamiliesSound(d.queueFamilies);
    assert DEVICE_EXTENSIONS[0] == "VK_KHR_swapchain";
  }
}
