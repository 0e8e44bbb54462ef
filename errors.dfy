/**
 * Outcomes shared by the whole model. Every `mooseError`, `paramError` and
 * escaping `std::invalid_argument` / `std::out_of_range` of the generators and
 * materials is fatal for the run; here it becomes an `Err` (or `Fail`) value
 * that the caller propagates unchanged.
 */
module Errors {
  import opened Geometry

  datatype Option<T> = None | Some(value: T)

  datatype Error =
    | FileFormat                                   // "Invalid CSV format or col_index out of range"
    | InvalidNumber                                // std::stoi / std::stod found no number
    | NumberOutOfRange                             // std::stoi value outside `int`
    | TooFewComponents(coord: seq<real>, dim: nat) // paramError "does not have enough components"
    | TooManyComponents(coord: seq<real>)          // paramError "has too many components"
    | PointNotLocated(point: Vec3)                 // "Unable to locate the following point"
    | NoNodeAtPoint(point: Vec3)                   // "No node found at point"
    | InactiveParent                               // "Only active, level 0 elements can be made interior parents"
    | MissingElement(elem: nat)                    // elem_ptr on an element this process does not hold
    | BlockNotFound(block: nat)                    // "Block ID ... not found in CSV data"
    | OutOfBounds(index: int)                      // a vector read at `index`, past its end: undefined behaviour

  datatype Result<T> = Ok(value: T) | Err(error: Error)

  datatype Outcome = Pass | Fail(error: Error)
}

/** Points, gradients and rank-two tensors of a three-dimensional space. */
module Geometry {

  /** libMesh's `Point` and `RealGradient`. */
  datatype Vec3 = Vec3(x: real, y: real, z: real)

  const Origin := Vec3(0.0, 0.0, 0.0)

  /** Component `j` of `v`, as `v(j)` reads it. */
  function At(v: Vec3, j: nat): real
    requires j < 3
  {
    if j == 0 then v.x else if j == 1 then v.y else v.z
  }

  /** `v` with component `j` replaced, as `v(j) = a` writes it. */
  function With(v: Vec3, j: nat, a: real): (r: Vec3)
    requires j < 3
    ensures At(r, j) == a
    ensures forall k :: 0 <= k < 3 && k != j ==> At(r, k) == At(v, k)
  {
    if j == 0 then v.(x := a) else if j == 1 then v.(y := a) else v.(z := a)
  }

  /** libMesh's `RealTensorValue`, row by row. */
  datatype Tensor = Tensor(xx: real, xy: real, xz: real,
                           yx: real, yy: real, yz: real,
                           zx: real, zy: real, zz: real)

  const ZeroTensor := Tensor(0.0, 0.0, 0.0, 0.0, 0.0, 0.0, 0.0, 0.0, 0.0)

  /** Entry (i, j) of `t`. */
  function Entry(t: Tensor, i: nat, j: nat): real
    requires i < 3 && j < 3
  {
    if i == 0 then (if j == 0 then t.xx else if j == 1 then t.xy else t.xz)
    else if i == 1 then (if j == 0 then t.yx else if j == 1 then t.yy else t.yz)
    else (if j == 0 then t.zx else if j == 1 then t.zy else t.zz)
  }
}
