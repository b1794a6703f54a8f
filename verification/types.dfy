/** The enumerations and the image record shared by the whole application
    (types.ts). */
module Types {

  datatype Mode = Create | Edit

  /** The creative functions. `Colmap` and `Animate` exist as tags but are not
      offered in the creation menu. */
  datatype CreateFunction = Free | Sticker | Text | Comic | Skeleton | Miniature | Colmap | Animate

  datatype EditFunction = AddRemove | Retouch | Style | Compose

  /** The four orthographic camera presets: 'front', 'back', 'side_left', 'side_right'. */
  datatype OrthoView = Front | Back | SideLeft | SideRight

  /** The aspect ratios '1:1', '16:9', '9:16', '4:3' and '3:4'. */
  datatype AspectRatio = Ratio1x1 | Ratio16x9 | Ratio9x16 | Ratio4x3 | Ratio3x4

  /** An uploaded or generated image: a base64 payload and its mime type. */
  datatype ImageFile = ImageFile(base64: string, mimeType: string)
}
