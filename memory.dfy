/**
 * Memory-type selection and buffer creation (findMemoryTypeIndex and
 * createBuffer).  The device's memory-type table is the list of property
 * flags of its memory types, as vkGetPhysicalDeviceMemoryProperties reports
 * it; the driver's answers to vkCreateBuffer, vkGetBufferMemoryRequirements
 * and vkAllocateMemory are parameters.
 */
module Memory {
  import opened Vk
  import opened Wrappers

  datatype MemoryError = NoMemoryTypeFound | BufferCreationFailed | AllocationFailed

  /** `1 << i`: the bit of memory type i in a memoryTypeBits mask. */
  function Bit(i: nat): bv32
    requires i < 32
  {
    (1 as bv32) << i
  }

  /**
   * The test `(propertyFlags & properties) == properties` is a superset
   * test, not an equality test: a type with more flags than requested passes.
   */
  lemma MaskTestAcceptsExtraFlags()
    ensures var flags := MEMORY_PROPERTY_DEVICE_LOCAL_BIT | MEMORY_PROPERTY_HOST_VISIBLE_BIT | MEMORY_PROPERTY_HOST_COHERENT_BIT;
            var required := MEMORY_PROPERTY_HOST_VISIBLE_BIT | MEMORY_PROPERTY_HOST_COHERENT_BIT;
            flags != required && flags & required == required
  {
  }

  /**
   * Memory type i is allowed by the mask and its flags include every
   * requested flag.
   */
  predicate Suitable(memoryTypes: seq<bv32>, allowedTypes: bv32, properties: bv32, i: nat) {
    i < |memoryTypes| && i < 32 && allowedTypes & Bit(i) != 0 && memoryTypes[i] & properties == properties
  }

  /** i is the lowest-numbered suitable memory type. */
  predicate IsFirstSuitable(memoryTypes: seq<bv32>, allowedTypes: bv32, properties: bv32, i: nat) {
    Suitable(memoryTypes, allowedTypes, properties, i) &&
    forall j: nat :: j < i ==> !Suitable(memoryTypes, allowedTypes, properties, j)
  }

  /**
   * The first memory type, in table order, whose bit is set in
   * `allowedTypes` and whose flags include `properties`; NoMemoryTypeFound
   * (the exception of the source) when there is none.
   */
  method FindMemoryTypeIndex(memoryTypes: seq<bv32>, allowedTypes: bv32, properties: bv32)
    returns (r: Result<nat, MemoryError>)
    requires |memoryTypes| <= MAX_MEMORY_TYPES
    ensures r.Success? ==> IsFirstSuitable(memoryTypes, allowedTypes, properties, r.value)
    ensures r.Success? ==> r.value < |memoryTypes| && allowedTypes & Bit(r.value) != 0
    ensures r.Failure? ==> r.error == NoMemoryTypeFound
    ensures r.Failure? <==> forall j: nat :: j < |memoryTypes| ==> !Suitable(memoryTypes, allowedTypes, properties, j)
  {
    var i: nat := 0;
    while i < |memoryTypes|
      invariant i <= |memoryTypes|
      invariant forall j: nat :: j < i ==> !Suitable(memoryTypes, allowedTypes, properties, j)
    {
      if allowedTypes & Bit(i) != 0 && memoryTypes[i] & properties == properties {
        assert Suitable(memoryTypes, allowedTypes, properties, i);
        return Success(i);
      }
      i := i + 1;
    }
    return Failure(NoMemoryTypeFound);
  }

  /** Where a buffer's memory is bound: an allocation handle and an offset. */
  datatype Binding = Binding(memory: Handle, offset: nat)

  /** A VkBuffer as the driver knows it: its create info, its requirements and its binding. */
  datatype BufferObject = BufferObject(
    size: nat,
    usage: bv32,
    sharingMode: SharingMode,
    requirements: MemoryRequirements,
    binding: Option<Binding>)

  /** A VkDeviceMemory allocation. */
  datatype Allocation = Allocation(allocationSize: nat, memoryTypeIndex: nat)

  /**
   * The logical device's buffers and memory allocations.  The handle of a
   * buffer or allocation is its position in the list plus one, so that no
   * handle is VK_NULL_HANDLE.
   */
  class Device {
    const memoryTypes: seq<bv32>
    var buffers: seq<BufferObject>
    var allocations: seq<Allocation>

    /**
     * Every bound buffer satisfies the valid-usage rules of
     * vkBindBufferMemory: the allocation exists, its memory type is one the
     * buffer allows, and the buffer's required size fits after the offset.
     */
    ghost predicate Valid()
      reads this
    {
      |memoryTypes| <= MAX_MEMORY_TYPES &&
      forall b :: 0 <= b < |buffers| && buffers[b].binding.Some? ==>
        BindingFits(buffers[b], allocations)
    }

    ghost predicate BindingFits(buffer: BufferObject, allocs: seq<Allocation>)
      requires buffer.binding.Some?
    {
      var m := buffer.binding.value.memory;
      1 <= m <= |allocs| &&
      var a := allocs[m - 1];
      a.memoryTypeIndex < 32 &&
      buffer.requirements.memoryTypeBits & Bit(a.memoryTypeIndex) != 0 &&
      buffer.binding.value.offset + buffer.requirements.size <= a.allocationSize
    }

    constructor (memoryTypes: seq<bv32>)
      requires |memoryTypes| <= MAX_MEMORY_TYPES
      ensures Valid()
      ensures this.memoryTypes == memoryTypes && buffers == [] && allocations == []
    {
      this.memoryTypes := memoryTypes;
      buffers := [];
      allocations := [];
    }

    /**
     * createBuffer: create an exclusive buffer of `bufferSize` bytes, allocate
     * exactly the reported requirement size from the first suitable memory
     * type, and bind it at offset 0.  `createResult` and `allocateResult` are
     * the driver's answers to vkCreateBuffer and vkAllocateMemory; the result
     * of vkBindBufferMemory is not checked by the source and binding always
     * happens.  A buffer whose memory cannot be found or allocated stays
     * created and unbound.
     */
    method CreateBuffer(bufferSize: nat, bufferUsage: bv32, bufferProperties: bv32,
                        createResult: bool, requirements: MemoryRequirements, allocateResult: bool)
      returns (outcome: Outcome<MemoryError>, buffer: Handle, bufferMemory: Handle)
      requires Valid()
      modifies this
      ensures Valid()
      ensures !createResult ==>
        outcome == Fail(BufferCreationFailed) && buffers == old(buffers) && allocations == old(allocations)
      ensures createResult ==>
        |buffers| == |old(buffers)| + 1 && buffers[..|old(buffers)|] == old(buffers) && buffer == |buffers| &&
        var b := buffers[|buffers| - 1];
        b.size == bufferSize && b.usage == bufferUsage && b.sharingMode == Exclusive && b.requirements == requirements
      ensures createResult && (forall j: nat :: j < |memoryTypes| ==> !Suitable(memoryTypes, requirements.memoryTypeBits, bufferProperties, j)) ==>
        outcome == Fail(NoMemoryTypeFound) && buffers[|buffers| - 1].binding == None && allocations == old(allocations)
      ensures createResult && (exists j: nat :: j < |memoryTypes| && Suitable(memoryTypes, requirements.memoryTypeBits, bufferProperties, j)) && !allocateResult ==>
        outcome == Fail(AllocationFailed) && buffers[|buffers| - 1].binding == None && allocations == old(allocations)
      ensures outcome.Pass? <==>
        createResult && allocateResult &&
        exists j: nat :: j < |memoryTypes| && Suitable(memoryTypes, requirements.memoryTypeBits, bufferProperties, j)
      ensures outcome.Pass? ==>
        |allocations| == |old(allocations)| + 1 && allocations[..|old(allocations)|] == old(allocations) &&
        bufferMemory == |allocations| &&
        allocations[|allocations| - 1].allocationSize == requirements.size &&
        IsFirstSuitable(memoryTypes, requirements.memoryTypeBits, bufferProperties, allocations[|allocations| - 1].memoryTypeIndex) &&
        buffers[|buffers| - 1].binding == Some(Binding(bufferMemory, 0))
    {
      buffer, bufferMemory := NULL_HANDLE, NULL_HANDLE;
      if !createResult {
        return Fail(BufferCreationFailed), buffer, bufferMemory;
      }
      buffers := buffers + [BufferObject(bufferSize, bufferUsage, Exclusive, requirements, None)];
      buffer := |buffers|;

      var typeIndex := FindMemoryTypeIndex(memoryTypes, requirements.memoryTypeBits, bufferProperties);
      if typeIndex.Failure? {
        return Fail(typeIndex.error), buffer, bufferMemory;
      }
      if !allocateResult {
        return Fail(AllocationFailed), buffer, bufferMemory;
      }
      allocations := allocations + [Allocation(requirements.size, typeIndex.value)];
      bufferMemory := |allocations|;

      buffers := buffers[buffer - 1 := buffers[buffer - 1].(binding := Some(Binding(bufferMemory, 0)))];
      outcome := Pass;
    }
  }
}
