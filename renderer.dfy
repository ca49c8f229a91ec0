/** rendererManager.js: the renderer wrapper of the modular page. On every
    resize it sets the canvas size and, once both meshes exist, letterboxes
    the video plane and gives the trail quad the very same scale. */
module Renderer {
  import opened Viewport

  class RendererManager {
    /** The videoMesh and quad handed to the constructor are present. */
    const hasVideoMesh: bool
    const hasQuad: bool
    /** videoMesh.material.map.image.width and .height */
    const imageWidth: int
    const imageHeight: int
    /** renderer.setSize */
    var rendererSize: (int, int)
    /** videoMesh.scale and quad.scale */
    var videoScale: Vec3
    var quadScale: Vec3

    /** The constructor takes the meshes (Three.js gives a mesh the scale
        (1, 1, 1)) and runs a first resize with the window size (w, h). */
    constructor (hasVideoMesh: bool, hasQuad: bool, imageWidth: int, imageHeight: int, w: int, h: int)
      requires hasVideoMesh && hasQuad ==> imageWidth > 0 && imageHeight > 0 && w > 0 && h > 0
      ensures this.hasVideoMesh == hasVideoMesh && this.hasQuad == hasQuad
      ensures this.imageWidth == imageWidth && this.imageHeight == imageHeight
      ensures rendererSize == (w, h)
      ensures hasVideoMesh && hasQuad ==>
        var s := LetterboxScale(imageWidth as real / imageHeight as real, w as real / h as real);
        videoScale == quadScale == Vec3(s.sx, s.sy, 1.0)
      ensures !(hasVideoMesh && hasQuad) ==> videoScale == quadScale == Vec3(1.0, 1.0, 1.0)
    {
      this.hasVideoMesh, this.hasQuad := hasVideoMesh, hasQuad;
      this.imageWidth, this.imageHeight := imageWidth, imageHeight;
      rendererSize := (0, 0);
      videoScale, quadScale := Vec3(1.0, 1.0, 1.0), Vec3(1.0, 1.0, 1.0);
      new;
      OnResize(w, h);
    }

    /** onResize with the window size (w, h). Without both meshes only the
        renderer size changes; otherwise both meshes get the letterbox
        scale, without a flip. */
    method OnResize(w: int, h: int)
      requires hasVideoMesh && hasQuad ==> imageWidth > 0 && imageHeight > 0 && w > 0 && h > 0
      modifies this`rendererSize, this`videoScale, this`quadScale
      ensures rendererSize == (w, h)
      ensures hasVideoMesh && hasQuad ==>
        var s := LetterboxScale(imageWidth as real / imageHeight as real, w as real / h as real);
        videoScale == quadScale == Vec3(s.sx, s.sy, 1.0)
      ensures !(hasVideoMesh && hasQuad) ==> videoScale == old(videoScale) && quadScale == old(quadScale)
    {
      rendererSize := (w, h);
      if !hasVideoMesh || !hasQuad {
        return;
      }
      var va := imageWidth as real / imageHeight as real;
      var sa := w as real / h as real;
      var sx := if sa > va then va / sa else 1.0;
      var sy := if sa > va then 1.0 else sa / va;
      videoScale := Vec3(sx, sy, 1.0);
      quadScale := Vec3(sx, sy, 1.0);
    }
  }
}
