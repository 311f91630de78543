/** The Huffman code tables of mp3/mp3enc-tables.h: HCODE_t[y][x] and HLEN_t[y][x]. */
module HuffTables {

  const LINBITS: seq<nat> := [
    0, 0, 0, 0, 0, 0, 0, 0, 0, 0, 0, 0, 0, 0, 0, 0,
    1, 2, 3, 4, 6, 8, 10, 13, 4, 5, 6, 7, 8, 9, 11, 13]

  const HCODE_1: seq<seq<nat>> := [
    [1, 1],
    [1, 0]]

  const HLEN_1: seq<seq<nat>> := [
    [1, 2],
    [3, 3]]

  const HCODE_2: seq<seq<nat>> := [
    [1, 3, 3],
    [2, 1, 2],
    [1, 1, 0]]

  const HLEN_2: seq<seq<nat>> := [
    [1, 3, 5],
    [3, 3, 5],
    [6, 5, 6]]

  const HCODE_3: seq<seq<nat>> := [
    [3, 1, 3],
    [2, 1, 2],
    [1, 1, 0]]

  const HLEN_3: seq<seq<nat>> := [
    [2, 3, 5],
    [2, 2, 5],
    [6, 5, 6]]

  const HCODE_5: seq<seq<nat>> := [
    [1, 3, 7, 6],
    [2, 1, 5, 1],
    [6, 4, 7, 1],
    [5, 4, 1, 0]]

  const HLEN_5: seq<seq<nat>> := [
    [1, 3, 6, 7],
    [3, 3, 6, 6],
    [6, 6, 7, 7],
    [7, 7, 8, 8]]

  const HCODE_6: seq<seq<nat>> := [
    [7, 6, 5, 3],
    [3, 2, 4, 3],
    [5, 3, 4, 2],
    [1, 2, 1, 0]]

  const HLEN_6: seq<seq<nat>> := [
    [3, 3, 4, 6],
    [3, 2, 4, 5],
    [5, 4, 5, 6],
    [7, 5, 6, 7]]

  const HCODE_7: seq<seq<nat>> := [
    [1, 3, 11, 12, 7, 6],
    [2, 3, 4, 11, 6, 4],
    [10, 7, 13, 18, 9, 5],
    [19, 10, 17, 15, 14, 3],
    [16, 5, 8, 11, 3, 2],
    [10, 3, 4, 2, 1, 0]]

  const HLEN_7: seq<seq<nat>> := [
    [1, 3, 6, 7, 7, 8],
    [3, 4, 5, 7, 7, 8],
    [6, 6, 7, 8, 8, 9],
    [8, 7, 8, 9, 9, 10],
    [8, 7, 8, 9, 9, 10],
    [9, 8, 9, 9, 10, 10]]

  const HCODE_8: seq<seq<nat>> := [
    [3, 5, 7, 19, 13, 12],
    [4, 1, 3, 17, 5, 4],
    [6, 2, 5, 15, 8, 4],
    [18, 16, 14, 13, 11, 1],
    [12, 9, 7, 10, 5, 1],
    [5, 3, 3, 4, 1, 0]]

  const HLEN_8: seq<seq<nat>> := [
    [2, 3, 6, 8, 8, 9],
    [3, 2, 4, 8, 7, 8],
    [6, 4, 6, 8, 8, 9],
    [8, 8, 8, 9, 9, 9],
    [8, 8, 8, 9, 10, 11],
    [9, 8, 9, 10, 10, 11]]

  const HCODE_9: seq<seq<nat>> := [
    [7, 6, 7, 15, 11, 14],
    [5, 4, 6, 6, 7, 4],
    [9, 5, 8, 9, 9, 6],
    [14, 5, 8, 10, 6, 2],
    [15, 6, 8, 5, 4, 6],
    [7, 7, 5, 1, 1, 0]]

  const HLEN_9: seq<seq<nat>> := [
    [3, 3, 4, 6, 7, 8],
    [3, 3, 4, 5, 6, 7],
    [5, 4, 5, 6, 7, 8],
    [6, 5, 6, 7, 7, 8],
    [8, 6, 7, 7, 8, 9],
    [9, 8, 8, 8, 9, 9]]

  const HCODE_10: seq<seq<nat>> := [
    [1, 3, 11, 14, 20, 31, 14, 9],
    [2, 3, 9, 13, 19, 22, 13, 8],
    [10, 8, 15, 22, 33, 41, 10, 7],
    [23, 12, 21, 34, 47, 26, 11, 8],
    [35, 18, 32, 46, 27, 21, 16, 4],
    [30, 21, 40, 23, 22, 20, 6, 4],
    [12, 12, 19, 18, 9, 5, 5, 2],
    [17, 7, 6, 7, 3, 3, 1, 0]]

  const HLEN_10: seq<seq<nat>> := [
    [1, 3, 6, 7, 8, 9, 8, 9],
    [3, 4, 6, 7, 8, 9, 8, 8],
    [6, 6, 7, 8, 9, 10, 9, 9],
    [8, 7, 8, 9, 10, 10, 10, 10],
    [9, 8, 9, 10, 10, 11, 10, 10],
    [9, 9, 10, 10, 10, 11, 10, 11],
    [9, 8, 9, 9, 10, 10, 11, 11],
    [10, 8, 9, 10, 10, 11, 11, 11]]

  const HCODE_11: seq<seq<nat>> := [
    [3, 5, 11, 25, 35, 28, 14, 11],
    [4, 3, 7, 11, 33, 26, 12, 4],
    [10, 4, 13, 19, 31, 32, 9, 6],
    [24, 10, 18, 59, 58, 19, 13, 6],
    [34, 32, 30, 27, 30, 17, 14, 6],
    [33, 17, 31, 18, 16, 15, 9, 3],
    [21, 11, 20, 12, 7, 8, 4, 2],
    [15, 10, 5, 5, 5, 14, 1, 0]]

  const HLEN_11: seq<seq<nat>> := [
    [2, 3, 5, 7, 8, 8, 8, 8],
    [3, 3, 5, 6, 8, 8, 7, 7],
    [5, 4, 6, 7, 8, 9, 7, 8],
    [7, 6, 7, 9, 9, 10, 8, 9],
    [8, 8, 8, 8, 9, 10, 9, 10],
    [9, 8, 9, 10, 10, 11, 10, 10],
    [8, 7, 8, 8, 9, 10, 10, 10],
    [9, 8, 8, 9, 10, 11, 10, 10]]

  const HCODE_12: seq<seq<nat>> := [
    [9, 7, 17, 17, 32, 40, 27, 27],
    [6, 5, 7, 10, 13, 17, 12, 12],
    [16, 6, 11, 15, 22, 31, 11, 8],
    [33, 9, 14, 12, 19, 29, 15, 12],
    [41, 23, 21, 18, 18, 17, 10, 6],
    [39, 16, 30, 28, 16, 13, 7, 3],
    [38, 26, 10, 14, 9, 4, 4, 1],
    [26, 11, 7, 5, 5, 2, 1, 0]]

  const HLEN_12: seq<seq<nat>> := [
    [4, 3, 5, 6, 7, 8, 8, 9],
    [3, 3, 4, 5, 6, 7, 7, 8],
    [5, 4, 5, 6, 7, 8, 7, 8],
    [7, 5, 6, 6, 7, 8, 8, 9],
    [8, 7, 7, 7, 8, 8, 8, 9],
    [9, 7, 8, 8, 8, 9, 9, 9],
    [9, 8, 7, 8, 8, 8, 9, 9],
    [9, 8, 8, 8, 9, 9, 10, 10]]

  const HCODE_13: seq<seq<nat>> := [
    [1, 3, 15, 22, 35, 58, 47, 72, 43, 53, 35, 53, 34, 45, 48, 16],
    [5, 4, 13, 20, 16, 27, 45, 34, 20, 25, 33, 25, 32, 21, 23, 15],
    [14, 12, 23, 37, 60, 50, 78, 56, 30, 41, 31, 23, 28, 34, 20, 17],
    [21, 19, 36, 61, 57, 96, 74, 95, 44, 37, 57, 38, 39, 64, 39, 27],
    [34, 31, 59, 56, 97, 76, 115, 92, 55, 44, 42, 70, 49, 56, 36, 25],
    [51, 26, 49, 79, 75, 70, 94, 85, 78, 59, 82, 60, 75, 50, 35, 20],
    [46, 44, 77, 73, 114, 93, 90, 91, 72, 54, 72, 51, 30, 49, 53, 29],
    [71, 33, 65, 64, 91, 84, 79, 90, 87, 81, 80, 36, 52, 45, 21, 11],
    [42, 31, 29, 43, 54, 77, 69, 86, 78, 66, 47, 55, 48, 31, 16, 17],
    [52, 24, 40, 76, 73, 58, 83, 73, 61, 76, 58, 26, 40, 19, 23, 12],
    [68, 32, 30, 56, 55, 79, 71, 77, 46, 57, 55, 34, 52, 12, 13, 16],
    [52, 24, 40, 37, 41, 29, 50, 65, 54, 54, 21, 23, 28, 15, 10, 8],
    [67, 31, 27, 26, 48, 74, 59, 51, 37, 37, 22, 27, 18, 10, 6, 1],
    [44, 35, 33, 31, 53, 49, 38, 44, 30, 18, 26, 14, 17, 7, 1, 1],
    [43, 22, 42, 25, 23, 41, 36, 43, 20, 39, 38, 9, 9, 6, 4, 0],
    [19, 14, 16, 14, 24, 17, 15, 42, 16, 11, 22, 7, 5, 3, 2, 1]]

  const HLEN_13: seq<seq<nat>> := [
    [1, 3, 6, 7, 8, 9, 9, 10, 9, 10, 10, 11, 11, 12, 13, 12],
    [4, 4, 6, 7, 7, 8, 9, 9, 8, 9, 10, 10, 11, 11, 12, 12],
    [6, 6, 7, 8, 9, 9, 10, 10, 9, 10, 10, 10, 11, 12, 12, 13],
    [7, 7, 8, 9, 9, 10, 10, 11, 10, 10, 11, 11, 12, 13, 13, 14],
    [8, 8, 9, 9, 10, 10, 11, 11, 10, 11, 11, 12, 12, 13, 13, 14],
    [9, 8, 9, 10, 10, 10, 11, 11, 11, 11, 12, 12, 13, 13, 13, 14],
    [9, 9, 10, 10, 11, 11, 11, 12, 11, 11, 12, 12, 12, 14, 15, 15],
    [10, 9, 10, 10, 11, 11, 11, 12, 12, 13, 13, 12, 13, 14, 14, 14],
    [9, 9, 9, 10, 10, 11, 11, 12, 12, 12, 12, 13, 14, 14, 14, 15],
    [10, 9, 10, 11, 11, 11, 12, 12, 12, 13, 13, 13, 14, 14, 17, 15],
    [11, 10, 10, 11, 11, 12, 12, 13, 12, 13, 14, 13, 15, 14, 15, 16],
    [11, 10, 11, 11, 12, 11, 12, 13, 13, 14, 13, 14, 15, 15, 15, 16],
    [12, 11, 11, 11, 12, 13, 13, 13, 13, 14, 14, 15, 15, 16, 15, 19],
    [12, 12, 12, 12, 13, 13, 13, 14, 14, 14, 15, 15, 16, 15, 17, 18],
    [13, 12, 13, 13, 13, 14, 14, 16, 15, 16, 16, 15, 16, 16, 16, 19],
    [13, 12, 13, 13, 14, 14, 14, 16, 15, 15, 17, 16, 16, 16, 16, 16]]

  const HCODE_15: seq<seq<nat>> := [
    [7, 13, 19, 29, 52, 77, 125, 109, 90, 71, 109, 86, 118, 91, 123, 71],
    [12, 5, 17, 28, 22, 37, 32, 53, 43, 34, 53, 42, 68, 44, 60, 37],
    [18, 16, 15, 25, 42, 35, 60, 49, 41, 67, 51, 40, 30, 39, 58, 34],
    [53, 27, 24, 43, 40, 66, 56, 94, 77, 60, 47, 37, 55, 38, 53, 30],
    [47, 46, 41, 39, 67, 58, 50, 88, 73, 58, 90, 70, 50, 34, 47, 28],
    [76, 36, 34, 63, 57, 52, 92, 75, 63, 49, 82, 64, 46, 63, 43, 20],
    [124, 61, 59, 55, 95, 91, 78, 66, 56, 88, 58, 52, 74, 52, 32, 17],
    [108, 51, 48, 93, 79, 74, 65, 122, 92, 76, 57, 43, 65, 45, 22, 26],
    [89, 42, 40, 76, 72, 62, 55, 91, 77, 67, 48, 70, 49, 31, 37, 21],
    [123, 70, 64, 59, 57, 48, 87, 73, 66, 106, 72, 55, 39, 52, 24, 16],
    [108, 52, 50, 93, 89, 79, 71, 56, 47, 71, 57, 42, 24, 28, 17, 10],
    [119, 83, 78, 72, 69, 63, 51, 42, 67, 54, 41, 25, 16, 19, 12, 6],
    [107, 65, 62, 54, 49, 90, 73, 64, 48, 38, 23, 29, 22, 14, 15, 8],
    [81, 41, 80, 75, 66, 62, 51, 44, 53, 39, 27, 18, 13, 8, 10, 6],
    [122, 59, 56, 50, 46, 40, 70, 21, 36, 23, 62, 11, 14, 9, 2, 2],
    [63, 36, 33, 29, 27, 38, 30, 25, 20, 15, 9, 11, 7, 3, 1, 0]]

  const HLEN_15: seq<seq<nat>> := [
    [3, 4, 5, 6, 7, 8, 9, 9, 9, 9, 10, 10, 11, 11, 12, 12],
    [4, 3, 5, 6, 6, 7, 7, 8, 8, 8, 9, 9, 10, 10, 11, 11],
    [5, 5, 5, 6, 7, 7, 8, 8, 8, 9, 9, 9, 9, 10, 11, 11],
    [7, 6, 6, 7, 7, 8, 8, 9, 9, 9, 9, 9, 10, 10, 11, 11],
    [7, 7, 7, 7, 8, 8, 8, 9, 9, 9, 10, 10, 10, 10, 11, 11],
    [8, 7, 7, 8, 8, 8, 9, 9, 9, 9, 10, 10, 10, 11, 11, 11],
    [9, 8, 8, 8, 9, 9, 9, 9, 9, 10, 10, 10, 11, 11, 11, 11],
    [9, 8, 8, 9, 9, 9, 9, 10, 10, 10, 10, 10, 11, 11, 11, 12],
    [9, 8, 8, 9, 9, 9, 9, 10, 10, 10, 10, 11, 11, 11, 12, 12],
    [10, 9, 9, 9, 9, 9, 10, 10, 10, 11, 11, 11, 11, 12, 12, 12],
    [10, 9, 9, 10, 10, 10, 10, 10, 10, 11, 11, 11, 11, 12, 12, 12],
    [11, 10, 10, 10, 10, 10, 10, 10, 11, 11, 11, 11, 11, 12, 12, 12],
    [11, 10, 10, 10, 10, 11, 11, 11, 11, 11, 11, 12, 12, 12, 13, 13],
    [11, 10, 11, 11, 11, 11, 11, 11, 12, 12, 12, 12, 12, 12, 13, 13],
    [12, 11, 11, 11, 11, 11, 12, 11, 12, 12, 13, 12, 13, 13, 12, 13],
    [13, 11, 11, 11, 11, 12, 12, 12, 12, 12, 12, 13, 13, 13, 13, 13]]

  const HCODE_16: seq<seq<nat>> := [
    [1, 3, 15, 45, 75, 66, 111, 98, 85, 154, 139, 243, 202, 747, 377, 12],
    [5, 4, 13, 21, 36, 30, 54, 48, 84, 76, 129, 120, 224, 211, 369, 10],
    [14, 12, 23, 39, 68, 59, 52, 91, 81, 73, 67, 118, 222, 210, 102, 7],
    [44, 20, 38, 69, 65, 56, 100, 88, 159, 141, 125, 115, 218, 208, 187, 11],
    [74, 35, 67, 64, 115, 102, 184, 165, 156, 131, 247, 227, 216, 370, 726, 10],
    [63, 62, 58, 114, 101, 185, 178, 157, 143, 256, 233, 223, 389, 379, 722, 17],
    [110, 53, 103, 99, 179, 173, 160, 148, 260, 245, 229, 396, 386, 734, 358, 11],
    [93, 47, 90, 87, 164, 265, 133, 261, 249, 426, 219, 746, 381, 723, 711, 9],
    [172, 83, 161, 158, 155, 142, 257, 248, 427, 406, 393, 742, 364, 714, 709, 13],
    [149, 75, 72, 140, 264, 253, 244, 407, 401, 394, 743, 736, 888, 1735, 866, 12],
    [138, 68, 127, 252, 246, 232, 228, 397, 392, 384, 737, 721, 443, 883, 1734, 10],
    [242, 119, 117, 212, 226, 400, 217, 372, 383, 735, 720, 712, 707, 877, 871, 7],
    [225, 201, 110, 199, 395, 388, 385, 380, 727, 359, 885, 706, 440, 876, 3458, 5],
    [195, 107, 209, 387, 382, 378, 366, 889, 713, 710, 882, 223, 437, 3459, 870, 3],
    [376, 207, 206, 365, 362, 445, 715, 884, 708, 352, 439, 436, 1728, 865, 434, 1],
    [17, 9, 16, 26, 9, 16, 10, 8, 7, 11, 4, 6, 4, 2, 0, 3]]

  const HLEN_16: seq<seq<nat>> := [
    [1, 3, 6, 8, 9, 9, 10, 10, 10, 11, 11, 12, 12, 14, 13, 9],
    [4, 4, 6, 7, 8, 8, 9, 9, 10, 10, 11, 11, 12, 12, 13, 8],
    [6, 6, 7, 8, 9, 9, 9, 10, 10, 10, 10, 11, 12, 12, 11, 8],
    [8, 7, 8, 9, 9, 9, 10, 10, 11, 11, 11, 11, 12, 12, 12, 9],
    [9, 8, 9, 9, 10, 10, 11, 11, 11, 11, 12, 12, 12, 13, 14, 9],
    [9, 9, 9, 10, 10, 11, 11, 11, 11, 12, 12, 12, 13, 13, 14, 10],
    [10, 9, 10, 10, 11, 11, 11, 11, 12, 12, 12, 13, 13, 14, 13, 10],
    [10, 9, 10, 10, 11, 12, 11, 12, 12, 13, 12, 14, 13, 14, 14, 10],
    [11, 10, 11, 11, 11, 11, 12, 12, 13, 13, 13, 14, 13, 14, 14, 11],
    [11, 10, 10, 11, 12, 12, 12, 13, 13, 13, 14, 14, 15, 16, 15, 11],
    [11, 10, 11, 12, 12, 12, 12, 13, 13, 13, 14, 14, 14, 15, 16, 11],
    [12, 11, 11, 12, 12, 13, 12, 13, 13, 14, 14, 14, 14, 15, 15, 11],
    [12, 12, 11, 12, 13, 13, 13, 13, 14, 13, 15, 14, 14, 15, 17, 11],
    [12, 11, 12, 13, 13, 13, 13, 15, 14, 14, 15, 13, 14, 17, 15, 11],
    [13, 12, 12, 13, 13, 14, 14, 15, 14, 13, 14, 14, 16, 15, 14, 11],
    [9, 8, 9, 10, 9, 10, 10, 10, 10, 11, 10, 11, 11, 11, 11, 8]]

  const HCODE_24: seq<seq<nat>> := [
    [15, 14, 47, 81, 147, 263, 249, 435, 427, 335, 668, 652, 648, 620, 1033, 43],
    [13, 12, 22, 39, 72, 66, 123, 115, 212, 199, 184, 346, 322, 300, 280, 20],
    [46, 21, 41, 75, 69, 129, 121, 111, 208, 197, 183, 171, 316, 296, 278, 19],
    [80, 38, 74, 70, 135, 126, 117, 109, 205, 191, 179, 168, 312, 294, 274, 17],
    [146, 71, 68, 134, 127, 119, 113, 211, 201, 189, 175, 164, 307, 288, 267, 15],
    [262, 130, 128, 125, 118, 114, 215, 203, 193, 181, 344, 318, 302, 282, 264, 13],
    [248, 122, 120, 116, 112, 214, 206, 196, 186, 174, 331, 309, 292, 273, 259, 11],
    [434, 216, 221, 220, 210, 202, 195, 187, 177, 333, 314, 299, 284, 266, 382, 9],
    [426, 209, 207, 204, 200, 192, 185, 353, 169, 321, 304, 287, 269, 515, 378, 7],
    [669, 198, 194, 190, 188, 180, 347, 332, 320, 305, 290, 276, 261, 380, 372, 6],
    [653, 327, 182, 178, 352, 341, 330, 313, 303, 289, 277, 263, 512, 374, 367, 4],
    [649, 345, 340, 325, 323, 317, 308, 298, 286, 275, 530, 513, 376, 369, 363, 7],
    [621, 319, 315, 311, 306, 301, 291, 283, 268, 521, 383, 375, 370, 365, 360, 5],
    [517, 297, 295, 293, 285, 281, 272, 531, 514, 379, 373, 368, 364, 361, 358, 3],
    [1032, 279, 541, 271, 540, 262, 520, 381, 377, 371, 366, 362, 359, 357, 356, 1],
    [88, 42, 18, 16, 14, 12, 10, 17, 16, 11, 10, 6, 4, 2, 0, 3]]

  const HLEN_24: seq<seq<nat>> := [
    [4, 4, 6, 7, 8, 9, 9, 10, 10, 10, 11, 11, 11, 11, 12, 8],
    [4, 4, 5, 6, 7, 7, 8, 8, 9, 9, 9, 10, 10, 10, 10, 7],
    [6, 5, 6, 7, 7, 8, 8, 8, 9, 9, 9, 9, 10, 10, 10, 7],
    [7, 6, 7, 7, 8, 8, 8, 8, 9, 9, 9, 9, 10, 10, 10, 7],
    [8, 7, 7, 8, 8, 8, 8, 9, 9, 9, 9, 9, 10, 10, 10, 7],
    [9, 8, 8, 8, 8, 8, 9, 9, 9, 9, 10, 10, 10, 10, 10, 7],
    [9, 8, 8, 8, 8, 9, 9, 9, 9, 9, 10, 10, 10, 10, 10, 7],
    [10, 9, 9, 9, 9, 9, 9, 9, 9, 10, 10, 10, 10, 10, 11, 7],
    [10, 9, 9, 9, 9, 9, 9, 10, 9, 10, 10, 10, 10, 11, 11, 7],
    [11, 9, 9, 9, 9, 9, 10, 10, 10, 10, 10, 10, 10, 11, 11, 7],
    [11, 10, 9, 9, 10, 10, 10, 10, 10, 10, 10, 10, 11, 11, 11, 7],
    [11, 10, 10, 10, 10, 10, 10, 10, 10, 10, 11, 11, 11, 11, 11, 8],
    [11, 10, 10, 10, 10, 10, 10, 10, 10, 11, 11, 11, 11, 11, 11, 8],
    [11, 10, 10, 10, 10, 10, 10, 11, 11, 11, 11, 11, 11, 11, 11, 8],
    [12, 10, 11, 10, 11, 10, 11, 11, 11, 11, 11, 11, 11, 11, 11, 8],
    [9, 8, 7, 7, 7, 7, 7, 8, 8, 8, 8, 8, 8, 8, 8, 4]]

  const COUNT1A_CODE: seq<nat> := [1, 5, 4, 5, 6, 5, 4, 4, 7, 3, 6, 0, 7, 2, 3, 1]

  const COUNT1A_LEN: seq<nat> := [1, 4, 4, 5, 4, 6, 5, 6, 4, 5, 5, 6, 5, 6, 6, 6]

  const COUNT1B_CODE: seq<nat> := [15, 14, 13, 12, 11, 10, 9, 8, 7, 6, 5, 4, 3, 2, 1, 0]

  const COUNT1B_LEN: seq<nat> := [4, 4, 4, 4, 4, 4, 4, 4, 4, 4, 4, 4, 4, 4, 4, 4]
}
