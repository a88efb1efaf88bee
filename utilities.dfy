/** Shared constants and records of the renderer. */
module Utilities {
  import opened Vk

  /** Number of frame slots (frames that may be in flight at once). */
  const MAX_FRAME_DRAWS: nat := 2

  /** The device extensions the renderer requires: only the swapchain. */
  const DEVICE_EXTENSIONS: seq<string> := ["VK_KHR_swapchain"]

  /**
   * Indices of the graphics and presentation queue families; -1 means
   * that no family has been found for that role.
   */
  datatype QueueFamilyIndices = QueueFamilyIndices(graphicsFamily: int, presentationFamily: int) {

    /** Both roles have a family. */
    predicate IsValid() {
      graphicsFamily >= 0 && presentationFamily >= 0
    }
  }

  /** A freshly declared QueueFamilyIndices: both fields -1. */
  function NewQueueFamilyIndices(): (r: QueueFamilyIndices)
    ensures r.graphicsFamily < 0 && r.presentationFamily < 0
  {
    QueueFamilyIndices(-1, -1)
  }

  /** A freshly declared record is not valid until both roles are found. */
  lemma NewIndicesInvalid()
    ensures !NewQueueFamilyIndices().IsValid()
  {
  }

  /** What the surface queries report about one physical device. */
  datatype SwapchainDetails = SwapchainDetails(
    surfaceCapabilities: SurfaceCapabilities,
    formats: seq<SurfaceFormat>,
    presentationModes: seq<nat>)

  /** A swapchain image together with the view the renderer creates for it. */
  datatype SwapchainImage = SwapchainImage(image: Handle, imageView: Handle)
}
