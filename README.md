# A verified model of the Vulkan renderer core

This project models the core of a small C++ Vulkan renderer:

- `VulkanProject/VulkanRenderer.cpp`: device and swapchain selection, swapchain, image-view, framebuffer, command-buffer and synchronisation creation, command recording, and the per-frame `draw`.
- `VulkanProject/Utilities.h`: shared constants and structures, memory-type search, buffer creation, buffer and image copies, and image layout transitions.

The Vulkan driver is not modelled. Each answer the driver gives is a parameter instead:

- the result of one call (`createResult`, `viewResult`, `submitResult`, ...);
- the position of the first failing call in a sequence of create calls (`failAt`);
- the data it enumerates (queue families, extensions, surface capabilities, memory types).

New handles come from a counter held by the renderer. The model keeps an abstract driver state:

- the commands recorded into each command buffer;
- the create info of every image view and framebuffer;
- a signalled flag and an in-flight flag per frame slot;
- a log of the queue operations submitted to the GPU.

The modules are:

- `Wrappers`: `Option`, `Result` and `Outcome`.
- `Vk`: Vulkan constants, handles and the structures the renderer reads.
- `Utilities`: `MAX_FRAME_DRAWS`, the required device extensions, `QueueFamilyIndices`, `SwapchainDetails` and `SwapchainImage`.
- `Memory`:
  - `findMemoryTypeIndex`, as a loop method proved against a first-match specification;
  - `createBuffer`, on a `Device` class that owns buffers and allocations.
- `Transfer`: the commands that `copyBuffer`, `copyImageBuffer` and `transitionImageLayout` record, with their meaning:
  - byte-level buffer copies;
  - texel addressing of a buffer-to-image copy;
  - the access/stage table of a layout transition.
- `SwapchainSelection`: the pure choices behind `createSwapchain`:
  - surface format;
  - presentation mode;
  - extent;
  - image count;
  - sharing mode;
  - the whole create info.
- `DeviceSelection`:
  - the queue-family scan;
  - the queue create infos of `createLogicalDevice`;
  - the instance and device extension checks;
  - device suitability.
- `CommandTrace`:
  - the command trace `recordCommands` puts into each command buffer;
  - an executable semantics of command-buffer recording, which checks the begin/render-pass/bind/draw rules and collects the draw calls.
- `FrameSync`: the frame-slot ring of `draw`:
  - when a fence is pending;
  - the pacing rule "never submit on a fence whose previous submission is still running";
  - the slot index modulo `MAX_FRAME_DRAWS`.
- `Renderer`: the `VulkanRenderer` class itself, with its member vectors and the methods that fill and use them.

Two behaviours are modelled exactly as the code has them:

- `chooseBestSurfaceFormat` accepts a preferred format whatever its colour space.
- `draw` throws on any result other than `VK_SUCCESS`, including `VK_SUBOPTIMAL_KHR` from present. There is no swapchain rebuild.

One behaviour is modelled in two ways. `chooseSwapExtent` as written ignores the window on a surface with a variable extent; see "## Findings". The as-written choice and a corrected clamp are both modelled, and the swapchain the renderer creates uses the corrected clamp. "## Left out" lists the members this affects.

## Model

| member | source | states |
|---|---|---|
| Utilities.NewQueueFamilyIndices | VulkanProject/Utilities.h:26-34 | a fresh QueueFamilyIndices has both family locations negative (not found) |
| Utilities.NewIndicesInvalid | VulkanProject/Utilities.h:26-34 | a fresh QueueFamilyIndices is not valid |
| Utilities.QueueFamilyIndices.IsValid | VulkanProject/Utilities.h:31-33 | definition: both family locations are non-negative; NewIndicesInvalid and DeviceSelection.QueueFamiliesValidIff state what it means |
| Memory.MaskTestAcceptsExtraFlags | VulkanProject/Utilities.h:84-85 | the `(flags & properties) == properties` test accepts a memory type with more property flags than were requested |
| Memory.FindMemoryTypeIndex | VulkanProject/Utilities.h:74-93 | on success, the index is the first memory type that is both allowed by the bit mask and has all requested properties; it is in range with its allowed bit set; failure happens exactly when no type qualifies, and is NoMemoryTypeFound |
| Memory.Device.CreateBuffer | VulkanProject/Utilities.h:95-135 | failure of buffer creation, memory-type search or allocation leaves the matching objects (no buffer, or an unbound buffer); success creates a buffer of the requested size bound at offset 0 to a new allocation of the required size in the first suitable memory type; the device invariant is kept |
| Transfer.CopyBufferCommand | VulkanProject/Utilities.h:195-201 | definition: the vkCmdCopyBuffer that copyBuffer records, with one region (0, 0, bufferSize); its effect is stated by CopyBufferCopiesPrefix |
| Transfer.CopyImageRegion | VulkanProject/Utilities.h:213-222 | definition: the region copyImageBuffer fills in; what it covers and how it addresses the buffer are stated by ImageRegionCoversImage, ImageCopyTightlyPacked and ImageCopyInjective |
| Transfer.CopyImageCommand | VulkanProject/Utilities.h:225-226 | definition: the vkCmdCopyBufferToImage that copyImageBuffer records, with the image in TRANSFER_DST_OPTIMAL; TextureUploadChain relates it to the layout transitions |
| Transfer.ApplyRegion | VulkanProject/Utilities.h:195-201 | one copy region writes `size` source bytes starting at `dstOffset` and leaves every other destination byte untouched; the length is kept |
| Transfer.CopyBufferCopiesPrefix | VulkanProject/Utilities.h:183-205 | copyBuffer's command copies the first bufferSize bytes of the source into the start of the destination and leaves the rest of the destination alone |
| Transfer.StagedUploadRoundTrip | VulkanProject/Utilities.h:183-205 | copying a staging buffer into a device-local buffer of the same size gives an exact copy of the staged bytes |
| Transfer.ImageRegionCoversImage | VulkanProject/Utilities.h:213-226 | copyImageBuffer's region covers exactly the texels of the width x height single-slice image, and writes only colour mip level 0 of layer 0 |
| Transfer.ImageCopyTightlyPacked | VulkanProject/Utilities.h:213-222 | with row length and image height 0, texel (x, y) is read from byte (y*width + x)*texelSize, inside the first width*height*texelSize bytes |
| Transfer.ImageCopyInjective | VulkanProject/Utilities.h:213-222 | distinct texels of the image are read from distinct buffer addresses |
| Transfer.TransitionImageLayout | VulkanProject/Utilities.h:232-282 | the barrier carries the old and new layout, the image, ignored queue families and colour mip 0 / layer 0; each pair of access masks and stages is the one in the table; each access mask is allowed at its stage |
| Transfer.TextureUploadChain | VulkanProject/Utilities.h:255-269 | transition, copy, transition form a consistent chain: the copy finds the layout the first barrier produces, the second barrier starts from it, and its source scope is the copy's transfer writes |
| SwapchainSelection.FirstPreferredFormat | VulkanProject/VulkanRenderer.cpp:1043-1048 | the index of the first RGBA8/BGRA8 UNORM format, or the list length when there is none |
| SwapchainSelection.ChooseBestSurfaceFormat | VulkanProject/VulkanRenderer.cpp:1035-1051 | a single UNDEFINED entry gives RGBA8 UNORM with sRGB non-linear colour space; otherwise the first preferred format when there is one, else the first listed format; the result is always one of the listed formats |
| SwapchainSelection.ColourSpaceIsNotChecked | VulkanProject/VulkanRenderer.cpp:1043-1048 | a preferred format with a colour space other than sRGB non-linear is still chosen |
| SwapchainSelection.ChooseBestPresentationMode | VulkanProject/VulkanRenderer.cpp:1053-1063 | the result is MAILBOX exactly when MAILBOX is offered, FIFO otherwise |
| SwapchainSelection.PresentationModeIsOffered | VulkanProject/VulkanRenderer.cpp:1053-1063 | when FIFO is offered (always, by the Vulkan specification), the chosen mode is one the surface offers |
| SwapchainSelection.ChooseSwapExtent | VulkanProject/VulkanRenderer.cpp:1065-1093 | as written: a fixed current extent is used as is; a variable one (UINT32_MAX) always yields maxImageExtent |
| SwapchainSelection.SwapExtentIgnoresWindow | VulkanProject/VulkanRenderer.cpp:1084-1089 | for a surface with a variable extent in [1, 4096] and an 800x600 window, the code as written gives 4096x4096, and the corrected choice gives 800x600 |
| SwapchainSelection.Clamp | VulkanProject/VulkanRenderer.cpp:1084-1089 | the result lies in [lo, hi]; it is the value itself when inside, lo when below, and hi when above |
| SwapchainSelection.ChooseSwapExtentClamped | VulkanProject/VulkanRenderer.cpp:1065-1093 | corrected: a fixed current extent is used as is; otherwise each dimension lies in [minImageExtent, maxImageExtent] and is the window size when that is inside, the minimum when the window is smaller, and the maximum when it is larger |
| SwapchainSelection.ImageCount | VulkanProject/VulkanRenderer.cpp:349-356 | minImageCount + 1, capped at maxImageCount when that is not 0; the uint32 addition wraps to 0 at UINT32_MAX |
| SwapchainSelection.ImageCountWithinSurfaceLimits | VulkanProject/VulkanRenderer.cpp:349-356 | for sane capabilities, the count is at least minImageCount and at most maxImageCount (when bounded), and exactly one more than the minimum when room allows |
| SwapchainSelection.SharingFor | VulkanProject/VulkanRenderer.cpp:377-393 | concurrent sharing over [graphics, presentation] exactly when the two families differ, otherwise exclusive with no family list; the count equals the list length |
| SwapchainSelection.ConcurrentFamiliesDistinct | VulkanProject/VulkanRenderer.cpp:377-393 | for valid indices, a concurrent image names two distinct, non-negative families, as the Vulkan specification requires |
| SwapchainSelection.SwapchainCreateInfoFor | VulkanProject/VulkanRenderer.cpp:359-396 | the create info names the surface; takes its format and colour space, present mode, image count and sharing from the selectors and its pre-transform from the surface's current transform; asks for one array layer, colour-attachment usage, opaque composite alpha and clipping, with no old swapchain; the extent is the corrected clamp |
| SwapchainSelection.CreateInfoExtentAsWritten | VulkanProject/VulkanRenderer.cpp:1065-1093 | the create info's extent equals the code as written on a surface with a fixed extent, and on a variable one when the window is at least the maximum extent |
| DeviceSelection.LastQualifying | VulkanProject/VulkanRenderer.cpp:894-904 | the last family before n that has a queue of the role (graphics bit / presentation support), or -1; no later family before n qualifies |
| DeviceSelection.QueueFamiliesOf | VulkanProject/VulkanRenderer.cpp:879-913 | reference definition of the scan's result: per role, the last qualifying family before the scan's stopping point; GetQueueFamilies is proved equal to it, and QueueFamiliesSound, QueueFamiliesStopEarly and QueueFamiliesValidIff state its meaning |
| DeviceSelection.GetQueueFamilies | VulkanProject/VulkanRenderer.cpp:879-913 | the scan loop computes QueueFamiliesOf: it stops at the first family after which both roles have been found, and each role keeps the last qualifying family seen so far |
| DeviceSelection.QueueFamiliesSound | VulkanProject/VulkanRenderer.cpp:879-913 | each found family is a real index whose family has a queue and qualifies for its role |
| DeviceSelection.QueueFamiliesStopEarly | VulkanProject/VulkanRenderer.cpp:906-908 | when both roles are found, the scan stopped at the first family where both were found, so no later family affects the result |
| DeviceSelection.FoundIffExists | VulkanProject/VulkanRenderer.cpp:894-904 | a role is found among the first n families exactly when some family among them qualifies |
| DeviceSelection.QueueFamiliesValidIff | VulkanProject/VulkanRenderer.cpp:879-913 | the indices are valid exactly when some family has a graphics queue and some family can present |
| DeviceSelection.DistinctFamilies | VulkanProject/VulkanRenderer.cpp:281-282 | the set of queue families of the indices, as a strictly increasing list: it contains exactly the graphics and presentation family |
| DeviceSelection.QueueCreateInfos | VulkanProject/VulkanRenderer.cpp:281-293 | one queue create info per distinct family, in set order, each asking for one queue of that family |
| DeviceSelection.QueueCreateCount | VulkanProject/VulkanRenderer.cpp:281-293 | one queue create info when graphics and presentation share a family, two otherwise |
| DeviceSelection.CheckInstanceExtensionSupport | VulkanProject/VulkanRenderer.cpp:945-973 | true exactly when every requested extension name is among the available ones |
| DeviceSelection.CheckDeviceExtensionSupport | VulkanProject/VulkanRenderer.cpp:975-1003 | true exactly when the device offers every required device extension; an empty list is rejected |
| DeviceSelection.DeviceSuitable | VulkanProject/VulkanRenderer.cpp:1005-1029 | reference definition of suitability: valid queue families, the required device extensions, and at least one present mode and one surface format; CheckDeviceSuitable is proved equal to it and SuitableDeviceUsable states what it guarantees |
| DeviceSelection.CheckDeviceSuitable | VulkanProject/VulkanRenderer.cpp:1005-1029 | suitable exactly when the queue families are valid, the required extensions are supported, and (only then) the swapchain details offer a format and a presentation mode |
| DeviceSelection.FirstSuitableDevice | VulkanProject/VulkanRenderer.cpp:871-876 | the index of the first suitable device in enumeration order, or the list length |
| DeviceSelection.SuitableDeviceUsable | VulkanProject/VulkanRenderer.cpp:1005-1029 | a suitable device has valid queue families with real indices, at least one surface format and presentation mode, and the swapchain extension |
| CommandTrace.MeshCommands | VulkanProject/VulkanRenderer.cpp:826-842 | definition: bind the mesh's vertex buffer at binding 0 and offset 0, bind its index buffer as uint32 at offset 0, draw its index count once; MeshCommandsExecute states their effect |
| CommandTrace.MeshListCommands | VulkanProject/VulkanRenderer.cpp:819-843 | definition: the commands of every mesh, in list order; MeshListCommandsAt and MeshListExecute state their layout and effect |
| CommandTrace.TracePrologue | VulkanProject/VulkanRenderer.cpp:793-815 | definition: begin the command buffer, begin the render pass over the framebuffer with render area (0, 0, extent) and one clear value, bind the graphics pipeline; PrologueExecute states the state it leaves |
| CommandTrace.TraceEpilogue | VulkanProject/VulkanRenderer.cpp:845-851 | definition: end the render pass, end the command buffer; EpilogueExecute states the state it leaves |
| CommandTrace.RecordedTrace | VulkanProject/VulkanRenderer.cpp:784-853 | definition: prologue, mesh commands, epilogue; RecordedTraceValid states that it is a valid, finished recording that draws every mesh once in order |
| CommandTrace.MeshListCommandsAt | VulkanProject/VulkanRenderer.cpp:819-843 | the mesh loop records three commands per mesh, and mesh j's bind-vertex, bind-index and draw-indexed sit at positions 3j..3j+3 |
| CommandTrace.ExecuteFromAppend | VulkanProject/VulkanRenderer.cpp:784-853 | executing a concatenated trace is executing the first part and then the second |
| CommandTrace.BrokenStaysBroken | VulkanProject/VulkanRenderer.cpp:784-853 | once a command violates the recording rules, the rest of the trace cannot repair it |
| CommandTrace.MeshDraws | VulkanProject/VulkanRenderer.cpp:828-842 | one indexed draw per mesh, in list order, with the pipeline, the mesh's vertex and index buffers, its index count and one instance |
| CommandTrace.MeshCommandsExecute | VulkanProject/VulkanRenderer.cpp:828-842 | inside a render pass with a bound pipeline, one mesh's commands are valid, bind its buffers and add exactly its draw call |
| CommandTrace.MeshListExecute | VulkanProject/VulkanRenderer.cpp:819-843 | inside a render pass with a bound pipeline, the whole mesh loop is valid and adds exactly MeshDraws of the mesh list |
| CommandTrace.PrologueExecute | VulkanProject/VulkanRenderer.cpp:793-815 | begin, begin render pass, bind pipeline leave a recording buffer inside a render pass with the pipeline bound and no draws |
| CommandTrace.EpilogueExecute | VulkanProject/VulkanRenderer.cpp:845-851 | end render pass, end command buffer finish a valid recording outside any render pass without adding draws |
| CommandTrace.RecordedTraceValid | VulkanProject/VulkanRenderer.cpp:784-853 | every command buffer recordCommands fills is a valid, finished recording whose draws are exactly one indexed draw per mesh, in order, with the graphics pipeline |
| FrameSync.Pending | VulkanProject/VulkanRenderer.cpp:173-202 | definition: a fence is pending when the last submission or completion naming it in the queue log is a submission; PendingAppend and FreshNotPending state how it evolves |
| FrameSync.WellPaced | VulkanProject/VulkanRenderer.cpp:173-202 | definition of frame pacing: no submission in the log signals a fence that is pending just before it; WellPacedAppend and Renderer.Renderer.Draw keep it |
| FrameSync.PendingAppend | VulkanProject/VulkanRenderer.cpp:173-202 | a submit makes its fence pending, a completion clears it, any other operation leaves it as it was |
| FrameSync.WellPacedAppend | VulkanProject/VulkanRenderer.cpp:173-202 | appending an operation keeps frame pacing when it does not submit on a pending fence |
| FrameSync.FreshNotPending | VulkanProject/VulkanRenderer.cpp:774-780 | a fence no submission has used, such as one just created, is not pending |
| FrameSync.NextFrame | VulkanProject/VulkanRenderer.cpp:219 | the next frame slot is below MAX_FRAME_DRAWS |
| FrameSync.FrameAfterIsModular | VulkanProject/VulkanRenderer.cpp:219 | k successful draws move the slot k places around the ring of MAX_FRAME_DRAWS slots |
| FrameSync.RingSlots | VulkanProject/VulkanRenderer.cpp:219 | MAX_FRAME_DRAWS consecutive frames use distinct slots, and a slot returns exactly MAX_FRAME_DRAWS frames later |
| Renderer.SingleLevelRange | VulkanProject/VulkanRenderer.cpp:1108-1112 | an image view's subresource range is mip level 0 and array layer 0, one of each, of the given aspects |
| Renderer.Resize | VulkanProject/VulkanRenderer.cpp:696 | std::vector::resize: the new length; old elements are kept and new ones are filled with the default |
| Renderer.Renderer.constructor | VulkanProject/VulkanRenderer.cpp:3-5 | a new renderer has null handles, empty member vectors and frame slot 0; the surface, render pass, pipeline and meshes are given |
| Renderer.Renderer.GetPhysicalDevice | VulkanProject/VulkanRenderer.cpp:855-877 | throws exactly when no device is enumerated; otherwise picks the first suitable device and keeps its record for the later stages, and leaves both unchanged when none is suitable |
| Renderer.Renderer.CreateImageView | VulkanProject/VulkanRenderer.cpp:1095-1121 | on success, a new view of the image with the given format and a single-level range of the given aspects; on failure it throws and nothing changes |
| Renderer.Renderer.CreateSwapchainObject | VulkanProject/VulkanRenderer.cpp:334-407 | for a suitable chosen device, the swapchain is created from SwapchainCreateInfoFor, with the renderer's surface and that device's surface details and queue families, and its format and extent are stored; a failed create throws and leaves the swapchain, its create info, format and extent, and the handle counter unchanged |
| Renderer.Renderer.CreateSwapchainImageViews | VulkanProject/VulkanRenderer.cpp:409-422 | one view per swapchain image, in order, until the first failing view create, which throws; each view records its image, the swapchain format and the colour aspect |
| Renderer.Renderer.CreateSwapchain | VulkanProject/VulkanRenderer.cpp:334-423 | for a suitable chosen device, combines the two parts above: the stored images are the driver's images, each paired with its new colour view; the existing views are kept; the renderer invariant is kept |
| Renderer.Renderer.CreateFramebuffers | VulkanProject/VulkanRenderer.cpp:693-718 | one framebuffer per swapchain image, in order, each over the render pass, that image's view, the swapchain extent and one layer; on the first failure it throws, and the slots not reached keep their resize value |
| Renderer.Renderer.CreateCommandBuffers | VulkanProject/VulkanRenderer.cpp:737-757 | allocates one empty primary command buffer per framebuffer; a failed allocation throws and leaves null handles |
| Renderer.Renderer.RecordCommandBuffer | VulkanProject/VulkanRenderer.cpp:807-851 | buffer i receives the prologue, the mesh loop and the epilogue; the other buffers are unchanged; a failed end throws |
| Renderer.Renderer.RecordCommands | VulkanProject/VulkanRenderer.cpp:784-853 | buffers are recorded in order; every finished buffer holds RecordedTrace for its framebuffer; the first failing begin or end throws; later buffers stay untouched |
| Renderer.Renderer.CreateFrameSlot | VulkanProject/VulkanRenderer.cpp:774-780 | creates the slot's image-available semaphore, render-finished semaphore and fence (created signalled), with fresh handles; the other slots are unchanged |
| Renderer.Renderer.CreateSynchronization | VulkanProject/VulkanRenderer.cpp:759-782 | MAX_FRAME_DRAWS slots, each with fresh semaphores and a signalled fence, up to the first failing create, which throws; on success the frame ring is ready (distinct fences, none pending) |
| Renderer.Renderer.WaitForFence | VulkanProject/VulkanRenderer.cpp:173-176 | waiting on the slot's fence completes its pending submission, if any; the reset leaves the fence unsignalled and not in flight |
| Renderer.Renderer.QueueSemaphoreOp | VulkanProject/VulkanRenderer.cpp:181 | an acquire or a present is appended to the queue log; the frame ring is unaffected |
| Renderer.Renderer.SubmitFrame | VulkanProject/VulkanRenderer.cpp:183-202 | submits the acquired image's command buffer, waiting on the slot's image-available semaphore at the colour-attachment-output stage and signalling the render-finished semaphore and the slot's fence; the fence becomes in flight, and pacing is kept |
| Renderer.Renderer.SubmitAndPresent | VulkanProject/VulkanRenderer.cpp:183-216 | a failed submit throws before presenting; otherwise the present, waiting on the render-finished semaphore, is queued unless the present fails with an error other than VK_ERROR_OUT_OF_DATE_KHR (the Vulkan specification queues it on SUCCESS, SUBOPTIMAL and OUT_OF_DATE); any result other than VK_SUCCESS throws |
| Renderer.Renderer.Draw | VulkanProject/VulkanRenderer.cpp:163-220 | one frame: wait for and reset the slot's fence, acquire, submit, present; the exact queue log and slot flags; the slot advances to NextFrame only on success; pacing and the ring invariant are kept |

## Left out

- Reading shader files, shader modules, and the graphics pipeline and render pass create infos (formats, attachments, subpass dependencies, clear values) are left out: they are fixed data with nothing to prove.
- `createInstance`, `createSurface`, `createCommandPool`, `getSwapchainDetails`, `init`'s call order and `cleanup` are not modelled beyond their results. They only forward to the driver, and their answers are parameters here.
- Mesh.cpp, main.cpp and VulkanRenderer.h are not part of this model. Meshes are modelled as their vertex buffer, index buffer and index count.
- `beginCommandBuffer` and `endAndSubmitCommandBuffer` are not modelled as separate steps. Each transfer helper is modelled by the single command it records; the queue submission and wait-idle around it are left out.
- Structure types (`sType`) are not modelled. The semaphore create info at VulkanRenderer.cpp:767 names the semaphore-type structure rather than the semaphore create info, which the model does not capture.
- Real GPU concurrency is not modelled. The GPU is a log of queue operations, a submission completes only at the fence wait, and semaphores are recorded but not given a wait/signal semantics.
- Memory.MaskTestAcceptsExtraFlags: only a concrete instance of the superset property of the memory-property mask test is proved, not the general statement over all masks.
- Renderer.Renderer.Draw: it requires the current slot's fence to be signalled or in flight. The source waits with an infinite timeout, which would never return otherwise; that state only follows a failed submit, which already threw.
- Renderer.Renderer.CreateSwapchain: the number of images the driver returns is a parameter, and image handles come from the renderer's counter.
- Renderer.Renderer.GetPhysicalDevice: a device's swapchain details are given with the device, instead of being queried from the surface.
- Memory.FindMemoryTypeIndex: it requires at most 32 memory types (VK_MAX_MEMORY_TYPES), as the driver guarantees.
- The image index that `vkAcquireNextImageKHR` returns is a parameter of Renderer.Renderer.Draw. The source ignores the acquire result, and so does the model.
- The window's framebuffer size (`glfwGetFramebufferSize`) is a parameter of the extent choice.
- SwapchainSelection.SwapchainCreateInfoFor: its extent is the corrected clamp (ChooseSwapExtentClamped), not the source's `chooseSwapExtent`, which gives maxImageExtent on a surface with a variable extent. CreateInfoExtentAsWritten states where the two agree.
- Renderer.Renderer.CreateSwapchainObject: it stores the corrected extent from SwapchainCreateInfoFor as `swapchainExtent`. The source stores maxImageExtent when the surface extent is variable, and the model does not capture that.
- Renderer.Renderer.CreateSwapchain: it inherits the corrected extent from CreateSwapchainObject, and so do the framebuffer extents and render areas built from `swapchainExtent`.
- The swapchain create info's structure type and flags are not modelled. Its queue-family list is a sequence. In the source, `pQueueFamilyIndices` points at an array declared inside the `if` block (VulkanRenderer.cpp:380-383), which is out of scope when `vkCreateSwapchainKHR` reads it (VulkanRenderer.cpp:398). The model reads it as the two family indices that were meant, and does not capture that undefined behaviour.
- DeviceSelection.QueueCreateInfos: the queue priority is not modelled. In the source, `pQueuePriorities` points at a loop-local `float` (VulkanRenderer.cpp:289-290) that is dead when `vkCreateDevice` reads it; that undefined behaviour is not captured either.
- Renderer.Renderer.CreateSwapchainObject and Renderer.Renderer.CreateSwapchain require that a suitable device was chosen. When none is suitable, the source goes on with a null physical device, whose behaviour is undefined.
- The `std::cout` logging in `checkInstanceExtensionSupport` and `checkDeviceSuitable` (VulkanRenderer.cpp:967, 1015) is output only and is not modelled.
- Transfer.TransitionImageLayout: it requires one of the two supported layout pairs. For any other pair the source leaves the stage masks uninitialised, and that undefined behaviour is not modelled.
- Host memory, mapping and `memcpy` into the staging buffers are left out. The staged bytes are a parameter of the copy lemmas.

## Findings

| source | as written | input that shows it | evidently intended | confidence | as-written member | corrected member |
|---|---|---|---|---|---|---|
| VulkanProject/VulkanRenderer.cpp:1084-1089 | `max(maxImageExtent.width, min(maxImageExtent.width, width))` (and the same for height), which is always maxImageExtent | a surface with currentExtent (UINT32_MAX, UINT32_MAX), min (1, 1), max (4096, 4096), and an 800x600 window, gives 4096x4096 | clamp the window size into [minImageExtent, maxImageExtent], giving 800x600 | not executed | SwapchainSelection.ChooseSwapExtent, SwapchainSelection.SwapExtentIgnoresWindow | SwapchainSelection.ChooseSwapExtentClamped |
