// The memory map (include/zero_cpu/core/MemoryMap.hpp).
module MemoryMap {
  const MEMORY_SIZE: nat := 0x1000
  const USER_DATA_BASE: nat := 0
  const USER_DATA_SIZE: nat := 0x200
  const USER_DATA_END: nat := 0x200
  const DEFAULT_CODE_BASE: nat := 0x200
  const DEFAULT_STACK_BASE: nat := 0x800
  const USER_STACK_BASE: nat := 0x800
  const USER_STACK_END: nat := 0xFA0
  const KERNEL_STACK_BASE: nat := 0xFA0
  const KERNEL_STACK_END: nat := 0x1000
}
