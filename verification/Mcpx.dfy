/** Sizes of the MCPX audio processor. */
module Mcpx {
  const MCPX_HW_MAX_VOICES: nat := 256
  const MCPX_HW_MAX_3D_VOICES: nat := 64

  type Handle = v: nat | v < MCPX_HW_MAX_VOICES
}
