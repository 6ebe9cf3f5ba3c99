/**
 * The native accessibility API seen as an attribute provider: a finite map
 * from element handles to the attributes the core reads. A handle that is
 * absent from the map (or no handle at all) answers no attribute, which is
 * what `element_attribute` returns as `None` when the native call fails.
 */
module Accessibility {
  import opened Wrappers
  import opened Geometry
  import opened Json

  type Handle = nat

  /** The value attribute: a plain value (scalar or array), a date, or another element. */
  datatype NativeValue = NPlain(j: Json) | NDate(text: string) | NElement(h: Handle)

  datatype NativeAttrs = NativeAttrs(
    role: Option<string>,              // kAXRoleAttribute
    subrole: Option<string>,           // kAXSubroleAttribute
    title: Option<string>,             // kAXTitleAttribute
    enabled: Option<bool>,             // kAXEnabledAttribute
    position: Option<Point>,           // kAXPositionAttribute read as a CGPoint
    size: Option<Size>,                // kAXSizeAttribute read as a CGSize
    description: Option<string>,       // kAXDescriptionAttribute
    roleDescription: Option<string>,   // kAXRoleDescriptionAttribute
    value: Option<NativeValue>,        // kAXValueAttribute
    children: Option<seq<Handle>>,     // kAXChildrenAttribute
    visibleChildren: Option<seq<Handle>>, // kAXVisibleChildrenAttribute
    actions: Option<seq<string>>,      // AXUIElementCopyActionNames; None when it reports an error
    parent: Option<Handle>,            // kAXParentAttribute
    window: Option<Handle>)            // kAXWindowAttribute

  type Provider = map<Handle, NativeAttrs>

  const NoAttrs := NativeAttrs(None, None, None, None, None, None, None, None,
                               None, None, None, None, None, None)

  /** The attributes of `h`; every attribute is missing for an unknown or null handle. */
  function Lookup(p: Provider, h: Option<Handle>): (a: NativeAttrs)
    ensures h.Some? && h.value in p ==> a == p[h.value]
    ensures h.None? || h.value !in p ==> a == NoAttrs
  {
    if h.Some? && h.value in p then p[h.value] else NoAttrs
  }
}
