/** The colour palette offered for events (constants.ts). */
module Constants {
  import opened Types

  /** COURSE_COLORS, in the order the form offers them. */
  const CourseColors: seq<ColorOption> := [
    ColorOption("red", "แดง (วิชาหลัก)", "bg-red-100 hover:bg-red-200",
                "border-red-500", "text-red-800", "bg-red-500"),
    ColorOption("blue", "ฟ้า (แลป/ปฏิบัติ)", "bg-blue-100 hover:bg-blue-200",
                "border-blue-500", "text-blue-800", "bg-blue-500"),
    ColorOption("green", "เขียว (วิชาเลือก)", "bg-emerald-100 hover:bg-emerald-200",
                "border-emerald-500", "text-emerald-800", "bg-emerald-500"),
    ColorOption("orange", "ส้ม (กิจกรรม)", "bg-orange-100 hover:bg-orange-200",
                "border-orange-500", "text-orange-800", "bg-orange-500"),
    ColorOption("purple", "ม่วง (ภาษา)", "bg-purple-100 hover:bg-purple-200",
                "border-purple-500", "text-purple-800", "bg-purple-500"),
    ColorOption("gray", "เทา (สอบ/อื่นๆ)", "bg-slate-100 hover:bg-slate-200",
                "border-slate-500", "text-slate-800", "bg-slate-500")
  ]

  /** Six colours, `red` first (the default and the fallback theme), and no
      id used twice, so a lookup by id is unambiguous. */
  lemma CourseColorIds()
    ensures |CourseColors| == 6 && CourseColors[0].id == "red"
    ensures forall i, j :: 0 <= i < j < |CourseColors| ==> CourseColors[i].id != CourseColors[j].id
  {
  }
}
