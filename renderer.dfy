/**
 * The renderer object: the member vectors that initialisation fills
 * (swapchain images, framebuffers, command buffers, synchronisation
 * objects), the frame-slot index that draw advances, and an abstract driver
 * state: the commands recorded in each command buffer, the create info of
 * each framebuffer, a signalled flag and an in-flight flag per frame slot,
 * and the log of queue operations.  Every answer of the driver is a
 * parameter (`...Result` for a single call, `failAt` for the number of the
 * first failing call of a sequence); new handles come from a counter.
 */
module Renderer {
  import opened Vk
  import opened Wrappers
  import opened Utilities
  import opened SwapchainSelection
  import opened DeviceSelection
  import opened CommandTrace
  import opened FrameSync
  import Transfer

  /** The runtime_error each step of the renderer throws. */
  datatype RendererError =
    | NoVulkanDevice
    | SwapchainCreationFailed
    | ImageViewCreationFailed
    | FramebufferCreationFailed
    | CommandBufferAllocationFailed
    | RecordingFailed
    | SynchronizationCreationFailed
    | SubmitFailed
    | PresentFailed

  /** VkImageViewCreateInfo as the driver keeps it: a 2D view with identity swizzles. */
  datatype ImageViewInfo = ImageViewInfo(image: Handle, format: nat, subresourceRange: Transfer.SubresourceRange)

  /** The first mip level of the first array layer of the given aspects. */
  function SingleLevelRange(aspectMask: bv32): (r: Transfer.SubresourceRange)
    ensures r.aspectMask == aspectMask && r.levelCount == 1 && r.layerCount == 1
    ensures r.baseMipLevel == 0 && r.baseArrayLayer == 0
  {
    Transfer.SubresourceRange(aspectMask, 0, 1, 0, 1)
  }

  /** VkFramebufferCreateInfo as the driver keeps it. */
  datatype FramebufferInfo = FramebufferInfo(renderPass: Handle, attachments: seq<Handle>, width: u32, height: u32, layers: nat)

  /** std::vector::resize: keep the first n elements and pad with `fill`. */
  function Resize<T>(s: seq<T>, n: nat, fill: T): (r: seq<T>)
    ensures |r| == n
    ensures forall i :: 0 <= i < n ==> r[i] == if i < |s| then s[i] else fill
  {
    if n <= |s| then s[..n] else s + seq(n - |s|, _ => fill)
  }

  class Renderer {
    var physicalDevice: Handle
    var chosenDevice: Option<PhysicalDevice>   // what the driver reports for physicalDevice
    var swapchain: Handle
    var swapchainCreateInfo: Option<SwapchainCreateInfo>
    var swapchainImageFormat: nat
    var swapchainExtent: Extent2D
    var swapchainImages: seq<SwapchainImage>
    var imageViewInfo: map<Handle, ImageViewInfo>
    var swapchainFramebuffers: seq<Handle>
    var commandBuffers: seq<Handle>
    const surface: Handle
    const renderPass: Handle
    const graphicsPipeline: Handle
    const meshList: seq<Mesh>
    var imageAvailable: seq<Handle>
    var renderFinished: seq<Handle>
    var drawFences: seq<Handle>
    var currentFrame: nat

    // Driver state.
    var nextHandle: Handle
    var framebufferInfo: map<Handle, FramebufferInfo>
    var recorded: seq<seq<Command>>     // per command buffer, in commandBuffers order
    var fenceSignalled: seq<bool>       // per frame slot
    var inFlight: seq<bool>             // per frame slot: its last submission has not completed
    var gpuLog: seq<GpuOp>

    /**
     * Handles come from a positive counter, the frame index is a slot of the
     * ring, there is one command list per command buffer, and every fence a
     * submission signals was created before the counter's value.
     */
    ghost predicate Valid()
      reads this`nextHandle, this`currentFrame, this`recorded, this`commandBuffers, this`gpuLog
    {
      nextHandle > 0 &&
      currentFrame < MAX_FRAME_DRAWS &&
      |recorded| == |commandBuffers| &&
      SubmittedBelow(gpuLog, nextHandle) &&
      WellPaced(gpuLog)
    }

    /**
     * The frame ring after createSynchronization: one semaphore pair and one
     * fence per slot, distinct fences, and per slot: in flight exactly when
     * its fence is pending in the queue log, and never both signalled and in
     * flight.
     */
    ghost predicate FrameRingReady()
      reads this`imageAvailable, this`renderFinished, this`drawFences, this`fenceSignalled, this`inFlight,
            this`nextHandle, this`gpuLog
    {
      |imageAvailable| == MAX_FRAME_DRAWS && |renderFinished| == MAX_FRAME_DRAWS &&
      |drawFences| == MAX_FRAME_DRAWS && |fenceSignalled| == MAX_FRAME_DRAWS && |inFlight| == MAX_FRAME_DRAWS &&
      (forall s, t :: 0 <= s < t < MAX_FRAME_DRAWS ==> drawFences[s] != drawFences[t]) &&
      (forall s :: 0 <= s < MAX_FRAME_DRAWS ==> drawFences[s] < nextHandle) &&
      (forall s :: 0 <= s < MAX_FRAME_DRAWS ==> inFlight[s] == Pending(gpuLog, drawFences[s])) &&
      (forall s :: 0 <= s < MAX_FRAME_DRAWS ==> fenceSignalled[s] ==> !inFlight[s])
    }

    /**
     * A renderer before initialisation, given the surface, the render pass,
     * the graphics pipeline and the meshes whose creation is not part of this
     * model.
     */
    constructor (surface: Handle, renderPass: Handle, graphicsPipeline: Handle, meshList: seq<Mesh>)
      ensures Valid()
      ensures this.surface == surface && this.renderPass == renderPass && this.graphicsPipeline == graphicsPipeline && this.meshList == meshList
      ensures physicalDevice == NULL_HANDLE && chosenDevice == None && swapchain == NULL_HANDLE && swapchainCreateInfo == None
      ensures swapchainImages == [] && swapchainFramebuffers == [] && commandBuffers == []
      ensures imageAvailable == [] && renderFinished == [] && drawFences == []
      ensures currentFrame == 0 && nextHandle == 1
      ensures imageViewInfo == map[] && framebufferInfo == map[] && recorded == [] && fenceSignalled == [] && inFlight == [] && gpuLog == []
    {
      this.surface := surface;
      this.renderPass := renderPass;
      this.graphicsPipeline := graphicsPipeline;
      this.meshList := meshList;
      physicalDevice := NULL_HANDLE;
      chosenDevice := None;
      swapchain := NULL_HANDLE;
      swapchainCreateInfo := None;
      swapchainImageFormat := FORMAT_UNDEFINED;
      swapchainExtent := Extent2D(0, 0);
      swapchainImages := [];
      imageViewInfo := map[];
      swapchainFramebuffers := [];
      commandBuffers := [];
      imageAvailable := [];
      renderFinished := [];
      drawFences := [];
      currentFrame := 0;
      nextHandle := 1;
      framebufferInfo := map[];
      recorded := [];
      fenceSignalled := [];
      inFlight := [];
      gpuLog := [];
    }

    /** The driver hands out a new handle. */
    method NewHandle() returns (h: Handle)
      requires nextHandle > 0
      modifies this`nextHandle
      ensures h == old(nextHandle) && nextHandle == h + 1
    {
      h := nextHandle;
      nextHandle := nextHandle + 1;
    }

    // -------------------------------------------------------------------
    // getPhysicalDevice

    /**
     * getPhysicalDevice: throws when no device is enumerated; otherwise
     * takes the first suitable device in enumeration order, and leaves the
     * field as it was when none is suitable.  The record of the chosen
     * device is kept for the later stages that query it.
     */
    method GetPhysicalDevice(devices: seq<PhysicalDevice>) returns (outcome: Outcome<RendererError>)
      modifies this`physicalDevice, this`chosenDevice
      ensures outcome.Fail? <==> |devices| == 0
      ensures outcome.Fail? ==>
        outcome.error == NoVulkanDevice && physicalDevice == old(physicalDevice) && chosenDevice == old(chosenDevice)
      ensures outcome.Pass? ==>
        var k := FirstSuitableDevice(devices);
        if k < |devices| then physicalDevice == devices[k].handle && chosenDevice == Some(devices[k])
        else physicalDevice == old(physicalDevice) && chosenDevice == old(chosenDevice)
    {
      if |devices| == 0 {
        return Fail(NoVulkanDevice);
      }
      var i := 0;
      while i < |devices|
        invariant i <= |devices|
        invariant forall j :: 0 <= j < i ==> !DeviceSuitable(devices[j])
        invariant physicalDevice == old(physicalDevice) && chosenDevice == old(chosenDevice)
      {
        var suitable := CheckDeviceSuitable(devices[i]);
        if suitable {
          physicalDevice := devices[i].handle;
          chosenDevice := Some(devices[i]);
          return Pass;
        }
        i := i + 1;
      }
      return Pass;
    }

    // -------------------------------------------------------------------
    // createSwapchain and createImageView

    /**
     * createImageView: a 2D view of `image` with identity swizzles over mip
     * level 0 and array layer 0 of the given aspect.  `viewResult` answers
     * vkCreateImageView; a failure throws.
     */
    method CreateImageView(image: Handle, format: nat, aspectFlags: bv32, viewResult: bool)
      returns (outcome: Outcome<RendererError>, imageView: Handle)
      requires nextHandle > 0
      modifies this`imageViewInfo, this`nextHandle
      ensures outcome.Pass? <==> viewResult
      ensures viewResult ==>
        imageView == old(nextHandle) && nextHandle == old(nextHandle) + 1 &&
        imageViewInfo == old(imageViewInfo)[imageView := ImageViewInfo(image, format, SingleLevelRange(aspectFlags))]
      ensures !viewResult ==>
        outcome == Fail(ImageViewCreationFailed) && nextHandle == old(nextHandle) && imageViewInfo == old(imageViewInfo)
    {
      if !viewResult {
        return Fail(ImageViewCreationFailed), NULL_HANDLE;
      }
      imageView := NewHandle();
      imageViewInfo := imageViewInfo[imageView := ImageViewInfo(image, format, SingleLevelRange(aspectFlags))];
      return Pass, imageView;
    }

    /**
     * The first part of createSwapchain: choose the create info from the
     * surface details and queue families of the chosen device, create the
     * swapchain, and keep its format and extent.
     */
    method CreateSwapchainObject(windowWidth: int, windowHeight: int, createResult: bool)
      returns (outcome: Outcome<RendererError>)
      requires nextHandle > 0
      requires chosenDevice.Some? && DeviceSuitable(chosenDevice.value)
      modifies this`swapchain, this`swapchainCreateInfo, this`swapchainImageFormat, this`swapchainExtent, this`nextHandle
      ensures outcome.Pass? <==> createResult
      ensures !createResult ==>
        outcome == Fail(SwapchainCreationFailed) && swapchain == old(swapchain) &&
        swapchainCreateInfo == old(swapchainCreateInfo) && nextHandle == old(nextHandle) &&
        swapchainImageFormat == old(swapchainImageFormat) && swapchainExtent == old(swapchainExtent)
      ensures createResult ==>
        var info := SwapchainCreateInfoFor(surface, chosenDevice.value.details, QueueFamiliesOf(chosenDevice.value.queueFamilies),
                                           windowWidth, windowHeight);
        swapchainCreateInfo == Some(info) && swapchain == old(nextHandle) && nextHandle == old(nextHandle) + 1 &&
        swapchainImageFormat == info.imageFormat && swapchainExtent == info.imageExtent
    {
      var device := chosenDevice.value;
      SuitableDeviceUsable(device);
      var indices := GetQueueFamilies(device.queueFamilies);
      var info := SwapchainCreateInfoFor(surface, device.details, indices, windowWidth, windowHeight);
      if !createResult {
        return Fail(SwapchainCreationFailed);
      }
      swapchain := NewHandle();
      swapchainCreateInfo := Some(info);
      swapchainImageFormat := info.imageFormat;
      swapchainExtent := info.imageExtent;
      return Pass;
    }

    /**
     * createSwapchain: choose the create info from the surface details and
     * queue families of the chosen device, which the source reaches only
     * with a suitable device (with the intended extent clamp), create the
     * swapchain, fetch its `imageCount` images and push one
     * image/image-view pair per image, each view a colour view in the
     * swapchain's format.  `createResult` answers vkCreateSwapchainKHR;
     * `viewFailAt` is the first image whose view cannot be created.
     */
    method CreateSwapchain(windowWidth: int, windowHeight: int, createResult: bool, imageCount: nat, viewFailAt: Option<nat>)
      returns (outcome: Outcome<RendererError>)
      requires Valid()
      requires chosenDevice.Some? && DeviceSuitable(chosenDevice.value)
      modifies this`swapchain, this`swapchainCreateInfo, this`swapchainImageFormat, this`swapchainExtent,
               this`swapchainImages, this`imageViewInfo, this`nextHandle
      ensures Valid()
      ensures !createResult ==>
        outcome == Fail(SwapchainCreationFailed) && swapchain == old(swapchain) &&
        swapchainCreateInfo == old(swapchainCreateInfo) && swapchainImages == old(swapchainImages) &&
        swapchainImageFormat == old(swapchainImageFormat) && swapchainExtent == old(swapchainExtent)
      ensures createResult ==>
        var info := SwapchainCreateInfoFor(surface, chosenDevice.value.details, QueueFamiliesOf(chosenDevice.value.queueFamilies),
                                           windowWidth, windowHeight);
        swapchainCreateInfo == Some(info) && swapchain == old(nextHandle) &&
        swapchainImageFormat == info.imageFormat && swapchainExtent == info.imageExtent
      ensures outcome.Pass? <==> createResult && (viewFailAt.None? || viewFailAt.value >= imageCount)
      ensures createResult && outcome.Fail? ==> outcome.error == ImageViewCreationFailed
      ensures var made := if !createResult then 0 else if outcome.Pass? then imageCount else viewFailAt.value;
              var base := |old(swapchainImages)|;
              |swapchainImages| == base + made && swapchainImages[..base] == old(swapchainImages) &&
              forall k :: base <= k < base + made ==>
                swapchainImages[k] == SwapchainImage(old(nextHandle) + 1 + (k - base), old(nextHandle) + 1 + imageCount + (k - base)) &&
                swapchainImages[k].imageView in imageViewInfo &&
                imageViewInfo[swapchainImages[k].imageView] ==
                  ImageViewInfo(swapchainImages[k].image, swapchainImageFormat, SingleLevelRange(IMAGE_ASPECT_COLOR_BIT))
      ensures forall h :: h < old(nextHandle) && h in old(imageViewInfo) ==>
        h in imageViewInfo && imageViewInfo[h] == old(imageViewInfo)[h]
    {
      outcome := CreateSwapchainObject(windowWidth, windowHeight, createResult);
      if outcome.Fail? {
        return;
      }

      var firstImage := nextHandle;
      var images := seq(imageCount, k => firstImage + k);
      nextHandle := nextHandle + imageCount;

      ghost var base := |swapchainImages|;
      assert nextHandle == old(nextHandle) + 1 + imageCount;
      outcome := CreateSwapchainImageViews(images, viewFailAt);
      ghost var made := if outcome.Pass? then imageCount else viewFailAt.value;
      assert forall j :: 0 <= j < made ==> images[j] == old(nextHandle) + 1 + j;
    }

    /**
     * The loop of createSwapchain over the fetched images: create a colour
     * view of each image in the swapchain format and push the pair.
     * `viewFailAt` is the first image whose view cannot be created.
     */
    method CreateSwapchainImageViews(images: seq<Handle>, viewFailAt: Option<nat>) returns (outcome: Outcome<RendererError>)
      requires nextHandle > 0
      modifies this`swapchainImages, this`imageViewInfo, this`nextHandle
      ensures outcome.Pass? <==> viewFailAt.None? || viewFailAt.value >= |images|
      ensures outcome.Fail? ==> outcome.error == ImageViewCreationFailed
      ensures var made := if outcome.Pass? then |images| else viewFailAt.value;
              var base := |old(swapchainImages)|;
              nextHandle == old(nextHandle) + made &&
              |swapchainImages| == base + made && swapchainImages[..base] == old(swapchainImages) &&
              forall k :: base <= k < base + made ==>
                swapchainImages[k] == SwapchainImage(images[k - base], old(nextHandle) + (k - base)) &&
                swapchainImages[k].imageView in imageViewInfo &&
                imageViewInfo[swapchainImages[k].imageView] ==
                  ImageViewInfo(swapchainImages[k].image, swapchainImageFormat, SingleLevelRange(IMAGE_ASPECT_COLOR_BIT))
      ensures forall h :: h < old(nextHandle) && h in old(imageViewInfo) ==>
        h in imageViewInfo && imageViewInfo[h] == old(imageViewInfo)[h]
    {
      ghost var base := |swapchainImages|;
      var k := 0;
      while k < |images|
        invariant k <= |images|
        invariant viewFailAt.None? || viewFailAt.value >= k
        invariant nextHandle == old(nextHandle) + k
        invariant |swapchainImages| == base + k && swapchainImages[..base] == old(swapchainImages)
        invariant forall j :: base <= j < base + k ==>
          swapchainImages[j] == SwapchainImage(images[j - base], old(nextHandle) + (j - base)) &&
          swapchainImages[j].imageView in imageViewInfo &&
          imageViewInfo[swapchainImages[j].imageView] ==
            ImageViewInfo(swapchainImages[j].image, swapchainImageFormat, SingleLevelRange(IMAGE_ASPECT_COLOR_BIT))
        invariant forall h :: h < old(nextHandle) && h in old(imageViewInfo) ==>
          h in imageViewInfo && imageViewInfo[h] == old(imageViewInfo)[h]
      {
        var viewOutcome, view := CreateImageView(images[k], swapchainImageFormat, IMAGE_ASPECT_COLOR_BIT, viewFailAt != Some(k));
        if viewOutcome.Fail? {
          return viewOutcome;
        }
        swapchainImages := swapchainImages + [SwapchainImage(images[k], view)];
        k := k + 1;
      }
      return Pass;
    }

    // -------------------------------------------------------------------
    // createFramebuffers and createCommandBuffers

    /**
     * createFramebuffers: resize the framebuffer list to the number of
     * swapchain images and create framebuffer i over image view i, with the
     * swapchain extent and one layer.  `failAt` is the first framebuffer the
     * driver refuses.
     */
    method CreateFramebuffers(failAt: Option<nat>) returns (outcome: Outcome<RendererError>)
      requires Valid()
      modifies this`swapchainFramebuffers, this`framebufferInfo, this`nextHandle
      ensures Valid()
      ensures outcome.Pass? <==> failAt.None? || failAt.value >= |swapchainImages|
      ensures outcome.Fail? ==> outcome.error == FramebufferCreationFailed
      ensures |swapchainFramebuffers| == |swapchainImages|
      ensures var made := if outcome.Pass? then |swapchainImages| else failAt.value;
              (forall i :: 0 <= i < made ==>
                swapchainFramebuffers[i] == old(nextHandle) + i &&
                swapchainFramebuffers[i] in framebufferInfo &&
                framebufferInfo[swapchainFramebuffers[i]] ==
                  FramebufferInfo(renderPass, [swapchainImages[i].imageView], swapchainExtent.width, swapchainExtent.height, 1)) &&
              (forall i :: made <= i < |swapchainImages| ==>
                swapchainFramebuffers[i] == Resize(old(swapchainFramebuffers), |swapchainImages|, NULL_HANDLE)[i])
      ensures forall h :: h < old(nextHandle) && h in old(framebufferInfo) ==>
        h in framebufferInfo && framebufferInfo[h] == old(framebufferInfo)[h]
    {
      swapchainFramebuffers := Resize(swapchainFramebuffers, |swapchainImages|, NULL_HANDLE);
      ghost var resized := swapchainFramebuffers;
      var i := 0;
      while i < |swapchainFramebuffers|
        invariant i <= |swapchainFramebuffers| == |swapchainImages|
        invariant failAt.None? || failAt.value >= i
        invariant nextHandle == old(nextHandle) + i
        invariant forall j :: 0 <= j < i ==>
          swapchainFramebuffers[j] == old(nextHandle) + j &&
          swapchainFramebuffers[j] in framebufferInfo &&
          framebufferInfo[swapchainFramebuffers[j]] ==
            FramebufferInfo(renderPass, [swapchainImages[j].imageView], swapchainExtent.width, swapchainExtent.height, 1)
        invariant forall j :: i <= j < |swapchainImages| ==> swapchainFramebuffers[j] == resized[j]
        invariant forall h :: h < old(nextHandle) && h in old(framebufferInfo) ==>
          h in framebufferInfo && framebufferInfo[h] == old(framebufferInfo)[h]
      {
        if failAt == Some(i) {
          return Fail(FramebufferCreationFailed);
        }
        var framebuffer := NewHandle();
        framebufferInfo := framebufferInfo[framebuffer :=
          FramebufferInfo(renderPass, [swapchainImages[i].imageView], swapchainExtent.width, swapchainExtent.height, 1)];
        swapchainFramebuffers := swapchainFramebuffers[i := framebuffer];
        i := i + 1;
      }
      return Pass;
    }

    /**
     * createCommandBuffers: one primary command buffer per framebuffer,
     * allocated in a single call.  When the allocation fails the driver
     * leaves every handle null.
     */
    method CreateCommandBuffers(allocateResult: bool) returns (outcome: Outcome<RendererError>)
      requires Valid()
      modifies this`commandBuffers, this`recorded, this`nextHandle
      ensures Valid()
      ensures |commandBuffers| == |swapchainFramebuffers|
      ensures outcome.Pass? <==> allocateResult
      ensures allocateResult ==>
        forall i :: 0 <= i < |commandBuffers| ==> commandBuffers[i] == old(nextHandle) + i && recorded[i] == []
      ensures !allocateResult ==>
        outcome == Fail(CommandBufferAllocationFailed) &&
        forall i :: 0 <= i < |commandBuffers| ==> commandBuffers[i] == NULL_HANDLE
    {
      var count := |swapchainFramebuffers|;
      commandBuffers := Resize(commandBuffers, count, NULL_HANDLE);
      recorded := seq(count, _ => []);
      if !allocateResult {
        commandBuffers := seq(count, _ => NULL_HANDLE);
        return Fail(CommandBufferAllocationFailed);
      }
      var first := nextHandle;
      commandBuffers := seq(count, i => first + i);
      nextHandle := nextHandle + count;
      return Pass;
    }

    // -------------------------------------------------------------------
    // recordCommands

    /** One recorded call on command buffer i. */
    method Record(i: nat, c: Command)
      requires i < |recorded|
      modifies this`recorded
      ensures recorded == old(recorded)[i := old(recorded)[i] + [c]]
    {
      recorded := recorded[i := recorded[i] + [c]];
    }

    /**
     * One iteration of recordCommands, after command buffer i has begun:
     * the render pass on framebuffer i with one clear value, the pipeline,
     * each mesh's bindings and indexed draw in list order, the end of the
     * render pass and, unless `endFails`, the end of the buffer.
     */
    method RecordCommandBuffer(i: nat, endFails: bool) returns (outcome: Outcome<RendererError>)
      requires i < |recorded| && i < |swapchainFramebuffers|
      modifies this`recorded
      ensures |recorded| == |old(recorded)|
      ensures forall k :: 0 <= k < |recorded| && k != i ==> recorded[k] == old(recorded)[k]
      ensures outcome.Pass? <==> !endFails
      ensures outcome.Fail? ==> outcome == Fail(RecordingFailed)
      ensures var prologue := TracePrologue(renderPass, swapchainFramebuffers[i], swapchainExtent, graphicsPipeline);
              recorded[i] == if endFails then prologue + MeshListCommands(meshList) + [EndRenderPass]
                             else RecordedTrace(renderPass, swapchainFramebuffers[i], swapchainExtent, graphicsPipeline, meshList)
    {
      var framebuffer := swapchainFramebuffers[i];
      recorded := recorded[i := [BeginCommandBuffer]];
      Record(i, BeginRenderPass(renderPass, framebuffer, Rect2D(0, 0, swapchainExtent), 1));
      Record(i, BindPipeline(graphicsPipeline));
      ghost var prologue := TracePrologue(renderPass, framebuffer, swapchainExtent, graphicsPipeline);
      assert recorded[i] == prologue + MeshListCommands(meshList[..0]);

      var j := 0;
      while j < |meshList|
        invariant j <= |meshList|
        invariant |recorded| == |old(recorded)|
        invariant recorded[i] == prologue + MeshListCommands(meshList[..j])
        invariant forall k :: 0 <= k < |recorded| && k != i ==> recorded[k] == old(recorded)[k]
      {
        Record(i, BindVertexBuffers(0, [meshList[j].vertexBuffer], [0]));
        Record(i, BindIndexBuffer(meshList[j].indexBuffer, 0, IndexTypeUint32));
        Record(i, DrawIndexed(meshList[j].indexCount, 1, 0, 0, 0));
        assert meshList[..j + 1][..j] == meshList[..j];
        assert recorded[i] == prologue + (MeshListCommands(meshList[..j]) + MeshCommands(meshList[j]));
        j := j + 1;
      }
      assert meshList[..j] == meshList;

      Record(i, EndRenderPass);
      if endFails {
        return Fail(RecordingFailed);
      }
      Record(i, EndCommandBuffer);
      assert recorded[i] == prologue + MeshListCommands(meshList) + TraceEpilogue;
      return Pass;
    }

    /**
     * recordCommands: for each command buffer i in order, begin it, begin
     * the render pass on framebuffer i with one clear value, bind the
     * pipeline, bind and draw every mesh in list order, end the render pass
     * and end the buffer.  Beginning buffer i is driver call 2i and ending
     * it is call 2i+1; `failAt` is the first failing call.
     */
    method RecordCommands(failAt: Option<nat>) returns (outcome: Outcome<RendererError>)
      requires Valid()
      requires |commandBuffers| <= |swapchainFramebuffers|
      modifies this`recorded
      ensures Valid()
      ensures |recorded| == |old(recorded)|
      ensures outcome.Pass? <==> failAt.None? || failAt.value >= 2 * |commandBuffers|
      ensures outcome.Fail? ==> outcome.error == RecordingFailed
      ensures var done := if outcome.Pass? then |commandBuffers| else failAt.value / 2;
              forall i :: 0 <= i < done ==>
                recorded[i] == RecordedTrace(renderPass, swapchainFramebuffers[i], swapchainExtent, graphicsPipeline, meshList)
      ensures outcome.Fail? && failAt.value % 2 == 1 ==>
        var i := failAt.value / 2;
        recorded[i] == TracePrologue(renderPass, swapchainFramebuffers[i], swapchainExtent, graphicsPipeline) +
                       MeshListCommands(meshList) + [EndRenderPass]
      ensures var untouched := if outcome.Pass? then |commandBuffers| else failAt.value / 2 + failAt.value % 2;
              forall i :: untouched <= i < |recorded| ==> recorded[i] == old(recorded)[i]
    {
      var i := 0;
      while i < |commandBuffers|
        invariant i <= |commandBuffers| == |recorded|
        invariant failAt.None? || failAt.value >= 2 * i
        invariant forall k :: 0 <= k < i ==>
          recorded[k] == RecordedTrace(renderPass, swapchainFramebuffers[k], swapchainExtent, graphicsPipeline, meshList)
        invariant forall k :: i <= k < |recorded| ==> recorded[k] == old(recorded)[k]
      {
        if failAt == Some(2 * i) {
          assert failAt.value / 2 == i && failAt.value % 2 == 0;
          return Fail(RecordingFailed);
        }
        outcome := RecordCommandBuffer(i, failAt == Some(2 * i + 1));
        if outcome.Fail? {
          assert failAt.value / 2 == i && failAt.value % 2 == 1;
          return;
        }
        i := i + 1;
      }
      return Pass;
    }

    // -------------------------------------------------------------------
    // createSynchronization

    /**
     * One iteration of createSynchronization: the image-available
     * semaphore, the render-finished semaphore and the signalled fence of
     * slot i (driver calls 3i, 3i+1 and 3i+2).  A failure leaves every other
     * slot as it was.
     */
    method CreateFrameSlot(i: nat, failAt: Option<nat>) returns (outcome: Outcome<RendererError>)
      requires Valid()
      requires i < MAX_FRAME_DRAWS
      requires |imageAvailable| == MAX_FRAME_DRAWS && |renderFinished| == MAX_FRAME_DRAWS && |drawFences| == MAX_FRAME_DRAWS
      requires |fenceSignalled| == MAX_FRAME_DRAWS && |inFlight| == MAX_FRAME_DRAWS
      requires failAt.None? || failAt.value >= 3 * i
      modifies this`imageAvailable, this`renderFinished, this`drawFences, this`fenceSignalled, this`inFlight, this`nextHandle
      ensures Valid()
      ensures |imageAvailable| == MAX_FRAME_DRAWS && |renderFinished| == MAX_FRAME_DRAWS && |drawFences| == MAX_FRAME_DRAWS
      ensures |fenceSignalled| == MAX_FRAME_DRAWS && |inFlight| == MAX_FRAME_DRAWS
      ensures outcome.Pass? <==> failAt.None? || failAt.value >= 3 * i + 3
      ensures outcome.Fail? ==> outcome == Fail(SynchronizationCreationFailed)
      ensures outcome.Pass? ==>
        nextHandle == old(nextHandle) + 3 &&
        imageAvailable == old(imageAvailable)[i := old(nextHandle)] &&
        renderFinished == old(renderFinished)[i := old(nextHandle) + 1] &&
        drawFences == old(drawFences)[i := old(nextHandle) + 2] &&
        fenceSignalled == old(fenceSignalled)[i := true] &&
        inFlight == old(inFlight)[i := false]
      ensures forall k :: 0 <= k < MAX_FRAME_DRAWS && k != i ==>
        imageAvailable[k] == old(imageAvailable)[k] && renderFinished[k] == old(renderFinished)[k] &&
        drawFences[k] == old(drawFences)[k] && fenceSignalled[k] == old(fenceSignalled)[k] && inFlight[k] == old(inFlight)[k]
    {
      if failAt == Some(3 * i) {
        return Fail(SynchronizationCreationFailed);
      }
      var available := NewHandle();
      imageAvailable := imageAvailable[i := available];
      if failAt == Some(3 * i + 1) {
        return Fail(SynchronizationCreationFailed);
      }
      var finished := NewHandle();
      renderFinished := renderFinished[i := finished];
      if failAt == Some(3 * i + 2) {
        return Fail(SynchronizationCreationFailed);
      }
      var fence := NewHandle();
      drawFences := drawFences[i := fence];
      fenceSignalled := fenceSignalled[i := true];
      inFlight := inFlight[i := false];
      return Pass;
    }

    /**
     * createSynchronization: resize the three per-slot lists to
     * MAX_FRAME_DRAWS and create, for each slot, an image-available
     * semaphore, a render-finished semaphore and a fence created signalled.
     * Slot i makes driver calls 3i, 3i+1 and 3i+2; `failAt` is the first
     * failing call, after which no further call is made.
     */
    method CreateSynchronization(failAt: Option<nat>) returns (outcome: Outcome<RendererError>)
      requires Valid()
      modifies this`imageAvailable, this`renderFinished, this`drawFences, this`fenceSignalled, this`inFlight, this`nextHandle
      ensures Valid()
      ensures |imageAvailable| == MAX_FRAME_DRAWS && |renderFinished| == MAX_FRAME_DRAWS && |drawFences| == MAX_FRAME_DRAWS
      ensures |fenceSignalled| == MAX_FRAME_DRAWS && |inFlight| == MAX_FRAME_DRAWS
      ensures outcome.Pass? <==> failAt.None? || failAt.value >= 3 * MAX_FRAME_DRAWS
      ensures outcome.Fail? ==> outcome.error == SynchronizationCreationFailed
      ensures var made := if outcome.Pass? then MAX_FRAME_DRAWS else failAt.value / 3;
              forall i :: 0 <= i < made ==>
                imageAvailable[i] == old(nextHandle) + 3 * i &&
                renderFinished[i] == old(nextHandle) + 3 * i + 1 &&
                drawFences[i] == old(nextHandle) + 3 * i + 2 &&
                fenceSignalled[i] && !inFlight[i]
      ensures outcome.Pass? ==> FrameRingReady()
    {
      imageAvailable := Resize(imageAvailable, MAX_FRAME_DRAWS, NULL_HANDLE);
      renderFinished := Resize(renderFinished, MAX_FRAME_DRAWS, NULL_HANDLE);
      drawFences := Resize(drawFences, MAX_FRAME_DRAWS, NULL_HANDLE);
      fenceSignalled := Resize(fenceSignalled, MAX_FRAME_DRAWS, false);
      inFlight := Resize(inFlight, MAX_FRAME_DRAWS, false);
      var i := 0;
      while i < MAX_FRAME_DRAWS
        invariant i <= MAX_FRAME_DRAWS
        invariant failAt.None? || failAt.value >= 3 * i
        invariant nextHandle == old(nextHandle) + 3 * i
        invariant |imageAvailable| == MAX_FRAME_DRAWS && |renderFinished| == MAX_FRAME_DRAWS && |drawFences| == MAX_FRAME_DRAWS
        invariant |fenceSignalled| == MAX_FRAME_DRAWS && |inFlight| == MAX_FRAME_DRAWS
        invariant forall k :: 0 <= k < i ==>
          imageAvailable[k] == old(nextHandle) + 3 * k &&
          renderFinished[k] == old(nextHandle) + 3 * k + 1 &&
          drawFences[k] == old(nextHandle) + 3 * k + 2 &&
          fenceSignalled[k] && !inFlight[k]
      {
        var slotOutcome := CreateFrameSlot(i, failAt);
        if slotOutcome.Fail? {
          assert failAt.value / 3 == i;
          return slotOutcome;
        }
        i := i + 1;
      }
      forall s | 0 <= s < MAX_FRAME_DRAWS
        ensures !Pending(gpuLog, drawFences[s])
      {
        FreshNotPending(gpuLog, old(nextHandle), drawFences[s]);
      }
      return Pass;
    }

    // -------------------------------------------------------------------
    // draw

    /**
     * Appending one queue operation to the log keeps the pacing rule when a
     * submission's fence is not pending, and only the fence the operation
     * names changes its pending state.
     */
    lemma PendingAfterOp(log: seq<GpuOp>, op: GpuOp)
      requires WellPaced(log)
      requires op.Submit? ==> !Pending(log, op.fence)
      ensures WellPaced(log + [op])
      ensures forall f :: (Pending(log + [op], f) ==
        (if (op.Submit? || op.Complete?) && op.fence == f then op.Submit? else Pending(log, f)))
    {
      WellPacedAppend(log, op);
      forall f
        ensures Pending(log + [op], f) ==
          (if (op.Submit? || op.Complete?) && op.fence == f then op.Submit? else Pending(log, f))
      {
        PendingAppend(log, op, f);
      }
    }

    /**
     * The fence wait and reset of draw: if the current slot's fence is not
     * signalled, its submission completes; the fence is then reset, and the
     * slot is no longer in flight.
     */
    method WaitForFence()
      requires Valid() && FrameRingReady()
      requires fenceSignalled[currentFrame] || inFlight[currentFrame]
      modifies this`fenceSignalled, this`inFlight, this`gpuLog
      ensures Valid() && FrameRingReady()
      ensures gpuLog == old(gpuLog) + if old(fenceSignalled)[currentFrame] then [] else [Complete(drawFences[currentFrame])]
      ensures fenceSignalled == old(fenceSignalled)[currentFrame := false]
      ensures inFlight == old(inFlight)[currentFrame := false]
    {
      var slot := currentFrame;
      if !fenceSignalled[slot] {
        PendingAfterOp(gpuLog, Complete(drawFences[slot]));
        gpuLog := gpuLog + [Complete(drawFences[slot])];
      }
      fenceSignalled := fenceSignalled[slot := false];
      inFlight := inFlight[slot := false];
    }

    /** An acquire or a present: no fence changes state. */
    method QueueSemaphoreOp(op: GpuOp)
      requires Valid() && FrameRingReady()
      requires op.Acquire? || op.Present?
      modifies this`gpuLog
      ensures Valid() && FrameRingReady()
      ensures gpuLog == old(gpuLog) + [op]
    {
      PendingAfterOp(gpuLog, op);
      gpuLog := gpuLog + [op];
    }

    /**
     * The submission of draw: command buffer `imageIndex`, waiting on the
     * slot's image-available semaphore at the colour-attachment stage and
     * signalling its render-finished semaphore and its fence, which must be
     * reset and not pending.
     */
    method SubmitFrame(imageIndex: nat)
      requires Valid() && FrameRingReady()
      requires imageIndex < |commandBuffers|
      requires !fenceSignalled[currentFrame] && !inFlight[currentFrame]
      modifies this`inFlight, this`gpuLog
      ensures Valid() && FrameRingReady()
      ensures gpuLog == old(gpuLog) +
        [Submit(commandBuffers[imageIndex], imageAvailable[currentFrame], PIPELINE_STAGE_COLOR_ATTACHMENT_OUTPUT_BIT,
                renderFinished[currentFrame], drawFences[currentFrame])]
      ensures inFlight == old(inFlight)[currentFrame := true]
    {
      var slot := currentFrame;
      var op := Submit(commandBuffers[imageIndex], imageAvailable[slot], PIPELINE_STAGE_COLOR_ATTACHMENT_OUTPUT_BIT,
                       renderFinished[slot], drawFences[slot]);
      PendingAfterOp(gpuLog, op);
      gpuLog := gpuLog + [op];
      inFlight := inFlight[slot := true];
    }

    /**
     * The second half of draw: submit the image's command buffer, then
     * present the image when the submission succeeded.  By the Vulkan
     * specification a present answered with VK_SUBOPTIMAL_KHR or
     * VK_ERROR_OUT_OF_DATE_KHR is still queued, so its semaphore wait
     * happens; draw nevertheless throws on every result except VK_SUCCESS.
     */
    method SubmitAndPresent(imageIndex: nat, submitResult: VkResult, presentResult: VkResult)
      returns (outcome: Outcome<RendererError>)
      requires Valid() && FrameRingReady()
      requires imageIndex < |commandBuffers|
      requires !fenceSignalled[currentFrame] && !inFlight[currentFrame]
      modifies this`inFlight, this`gpuLog
      ensures Valid() && FrameRingReady()
      ensures outcome.Pass? <==> submitResult == VkSuccess && presentResult == VkSuccess
      ensures outcome.Fail? ==> outcome.error == if submitResult != VkSuccess then SubmitFailed else PresentFailed
      ensures var submitted := submitResult == VkSuccess;
              var presented := submitted && presentResult != VkError;
              gpuLog == old(gpuLog) +
                (if submitted then
                   [Submit(commandBuffers[imageIndex], imageAvailable[currentFrame], PIPELINE_STAGE_COLOR_ATTACHMENT_OUTPUT_BIT,
                           renderFinished[currentFrame], drawFences[currentFrame])]
                 else []) +
                (if presented then [Present(renderFinished[currentFrame], imageIndex)] else [])
      ensures inFlight == old(inFlight)[currentFrame := submitResult == VkSuccess]
    {
      if submitResult != VkSuccess {
        assert gpuLog == old(gpuLog) + [] + [];
        return Fail(SubmitFailed);
      }
      SubmitFrame(imageIndex);
      ghost var submitted := gpuLog;
      if presentResult != VkError {
        QueueSemaphoreOp(Present(renderFinished[currentFrame], imageIndex));
      } else {
        assert gpuLog == submitted + [];
      }
      if presentResult != VkSuccess {
        return Fail(PresentFailed);
      }
      return Pass;
    }

    /**
     * draw: wait for and reset the current slot's fence, acquire image
     * `imageIndex`, submit that image's command buffer and present the
     * image.  Any result other than VK_SUCCESS from submit or present
     * throws, and only a draw that does not throw moves to the next slot.
     * The wait returns only if the fence is signalled or has a submission
     * to complete, hence the requirement on the current slot.
     */
    method Draw(imageIndex: nat, submitResult: VkResult, presentResult: VkResult) returns (outcome: Outcome<RendererError>)
      requires Valid() && FrameRingReady()
      requires imageIndex < |commandBuffers|
      requires fenceSignalled[currentFrame] || inFlight[currentFrame]
      modifies this`fenceSignalled, this`inFlight, this`gpuLog, this`currentFrame
      ensures Valid() && FrameRingReady()
      ensures outcome.Pass? <==> submitResult == VkSuccess && presentResult == VkSuccess
      ensures outcome.Fail? ==> outcome.error == if submitResult != VkSuccess then SubmitFailed else PresentFailed
      ensures currentFrame == if outcome.Pass? then NextFrame(old(currentFrame)) else old(currentFrame)
      ensures var slot := old(currentFrame);
              var waited := if old(fenceSignalled)[slot] then [] else [Complete(drawFences[slot])];
              var submitted := submitResult == VkSuccess;
              var presented := submitted && presentResult != VkError;
              gpuLog == old(gpuLog) + waited + [Acquire(imageAvailable[slot], imageIndex)] +
                (if submitted then
                   [Submit(commandBuffers[imageIndex], imageAvailable[slot], PIPELINE_STAGE_COLOR_ATTACHMENT_OUTPUT_BIT,
                           renderFinished[slot], drawFences[slot])]
                 else []) +
                (if presented then [Present(renderFinished[slot], imageIndex)] else [])
      ensures var slot := old(currentFrame);
              fenceSignalled == old(fenceSignalled)[slot := false] &&
              inFlight == old(inFlight)[slot := submitResult == VkSuccess]
    {
      var slot := currentFrame;
      WaitForFence();
      QueueSemaphoreOp(Acquire(imageAvailable[slot], imageIndex));
      ghost var acquired := gpuLog;
      outcome := SubmitAndPresent(imageIndex, submitResult, presentResult);
      assert gpuLog[..|acquired|] == acquired;
      if outcome.Pass? {
        currentFrame := NextFrame(currentFrame);
      }
    }
  }
}
