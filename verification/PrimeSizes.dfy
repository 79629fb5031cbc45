/** The sizes of the prime table of lib/libopenpop/hashtab.h are prime. Each lemma
    about one number is a certificate: powers of a base by squaring, the last of them
    1 and some of them apart from 1, all modulo that number. */
module PrimeSizes {
  import opened PrimeTable
  import opened Primality
  import opened Probing

  lemma Prime6917()
    ensures Prime(6917)
  {
    Trial(7); Trial(13);
    var g := Start(6917, 2807, 91);
    Next(g, 1, 2807, 3, 3197491, 6696); Next(g, 3, 6696, 6, 6482, 422); Next(g, 6, 422, 13, 72268, 4032);
    Next(g, 3, 6696, 7, 18195145, 1747); Next(g, 1, 2807, 2, 1139, 786); Next(g, 2, 786, 5, 250708, 6136);
    Next(g, 5, 6136, 11, 15279014, 2434); Next(g, 11, 2434, 22, 856, 3404); Next(g, 22, 3404, 45, 4702228, 4236);
    Next(g, 45, 4236, 91, 7281763, 1);
    Factor(g, 91, 1, 7, 13, 4032, 3679, 2144); Factor(g, 91, 7, 13, 7, 1747, 5162, 1303);
    Pocklington(g, 91);
  }

  lemma Prime8191()
    ensures Prime(8191)
  {
    Trial(7); Trial(13);
    var g := Start(8191, 5964, 91);
    Next(g, 1, 5964, 3, 25898581, 4373); Next(g, 3, 4373, 6, 2334, 5335); Next(g, 6, 5335, 13, 20723807, 6763);
    Next(g, 3, 4373, 7, 13923860, 4096); Next(g, 1, 5964, 2, 4342, 3974); Next(g, 2, 3974, 5, 11498903, 5191);
    Next(g, 5, 5191, 11, 19620170, 214); Next(g, 11, 214, 22, 5, 4841); Next(g, 22, 4841, 45, 17063608, 2756);
    Next(g, 45, 2756, 91, 5530433, 1);
    Factor(g, 91, 1, 7, 13, 6763, 5646, 4661); Factor(g, 91, 7, 13, 7, 4096, 8189, 4094);
    Pocklington(g, 91);
  }

  lemma Prime15101()
    ensures Prime(15101)
  {
    Trial(151);
    var g := Start(15101, 10000, 151);
    Next(g, 1, 10000, 2, 6622, 1178); Next(g, 2, 1178, 4, 91, 13493); Next(g, 4, 13493, 9, 120562246, 13154);
    Next(g, 9, 13154, 18, 11458, 458); Next(g, 18, 458, 37, 138907, 5393); Next(g, 37, 5393, 75, 19259949, 151);
    Next(g, 75, 151, 151, 15099, 1);
    Factor(g, 151, 1, 151, 1, 10000, 7219, 4780);
    Pocklington(g, 151);
  }

  lemma Prime16381()
    ensures Prime(16381)
  {
    Trial(2); Trial(7); Trial(13);
    var g := Start(16381, 13894, 182);
    Next(g, 1, 13894, 2, 11784, 9532); Next(g, 2, 9532, 5, 77064604, 1332); Next(g, 5, 1332, 11, 1504857, 5739);
    Next(g, 11, 5739, 22, 2010, 10311); Next(g, 22, 10311, 45, 90175479, 75); Next(g, 45, 75, 91, 4770, 16380);
    Next(g, 1, 13894, 3, 163734980, 13604); Next(g, 3, 13604, 6, 11297, 12659);
    Next(g, 6, 12659, 13, 135920725, 7989); Next(g, 13, 7989, 26, 3896, 3745); Next(g, 3, 13604, 7, 156971255, 1349);
    Next(g, 7, 1349, 14, 111, 1510); Next(g, 91, 16380, 182, 16379, 1);
    Factor(g, 182, 1, 2, 91, 16380, 8190, 8189); Factor(g, 182, 2, 7, 26, 3745, 14329, 3275);
    Factor(g, 182, 14, 13, 14, 1510, 5786, 533);
    Pocklington(g, 182);
  }

  lemma Prime32749()
    ensures Prime(32749)
  {
    Trial(2729);
    var g := Start(32749, 4096, 2729);
    Next(g, 1, 4096, 2, 512, 9728); Next(g, 2, 9728, 5, 11836110, 32074); Next(g, 5, 32074, 10, 31412, 29888);
    Next(g, 10, 29888, 21, 111726350, 24074); Next(g, 21, 24074, 42, 17696, 31172);
    Next(g, 42, 31172, 85, 121532166, 15730); Next(g, 85, 15730, 170, 7555, 14205);
    Next(g, 170, 14205, 341, 25237386, 20286); Next(g, 341, 20286, 682, 12565, 30611);
    Next(g, 682, 30611, 1364, 28612, 18933); Next(g, 1364, 18933, 2729, 44833307, 1);
    Factor(g, 2729, 1, 2729, 1, 4096, 20841, 2606);
    Pocklington(g, 2729);
  }

  lemma Powers65521(g: Powers)
    requires g.p == 65521 && g.b == 36441 && |g.ps| == 728 && g.Is(1, 36441)
    ensures g.Is(182, 65520) && g.Is(3, 35329)
  {
    Next(g, 1, 36441, 2, 20267, 32374); Next(g, 2, 32374, 5, 582911326, 6470); Next(g, 5, 6470, 11, 23281895, 14605);
    Next(g, 11, 14605, 22, 3255, 35170); Next(g, 22, 35170, 45, 687946246, 60734);
    Next(g, 45, 60734, 91, 2051509532, 41224); Next(g, 91, 41224, 182, 25936, 65520);
    Next(g, 1, 36441, 3, 738567752, 35329);
  }

  lemma Prime65521()
    ensures Prime(65521)
  {
    Trial(2); Trial(7); Trial(13);
    var g := Start(65521, 36441, 364);
    Powers65521(g);
    Next(g, 3, 35329, 6, 19049, 28712); Next(g, 6, 28712, 13, 458497170, 22734); Next(g, 13, 22734, 26, 7888, 5108);
    Next(g, 26, 5108, 52, 398, 14306); Next(g, 3, 35329, 7, 694180577, 54664); Next(g, 7, 54664, 14, 45606, 2170);
    Next(g, 14, 2170, 28, 71, 56909); Next(g, 182, 65520, 364, 65519, 1);
    Factor(g, 364, 1, 2, 182, 65520, 32760, 32759); Again(g, 364, 2, 2); Factor(g, 364, 4, 7, 52, 14306, 15660, 3419);
    Factor(g, 364, 28, 13, 28, 56909, 27599, 23971);
    Pocklington(g, 364);
  }

  lemma Prime70051()
    ensures Prime(70051)
  {
    Trial(467);
    var g := Start(70051, 729, 467);
    Next(g, 1, 729, 3, 5530, 38459); Next(g, 3, 38459, 7, 15392500, 4949); Next(g, 7, 4949, 14, 349, 44802);
    Next(g, 14, 44802, 29, 20888535, 34431); Next(g, 29, 34431, 58, 16923, 20688);
    Next(g, 58, 20688, 116, 6109, 51785); Next(g, 116, 51785, 233, 27907513, 64862);
    Next(g, 233, 64862, 467, 43781825, 1);
    Factor(g, 467, 1, 467, 1, 729, 63604, 661);
    Pocklington(g, 467);
  }

  lemma Prime131071()
    ensures Prime(131071)
  {
    Trial(2); Trial(257);
    var g := Start(131071, 8119, 514);
    Next(g, 1, 8119, 2, 502, 120519); Next(g, 2, 120519, 4, 110816, 65425); Next(g, 4, 65425, 8, 32657, 44978);
    Next(g, 8, 44978, 16, 15434, 70670); Next(g, 16, 70670, 32, 38103, 50587); Next(g, 32, 50587, 64, 19524, 14365);
    Next(g, 64, 14365, 128, 1574, 47471); Next(g, 128, 47471, 257, 139589479, 131070);
    Next(g, 257, 131070, 514, 131069, 1);
    Factor(g, 514, 1, 2, 257, 131070, 65535, 65534); Factor(g, 514, 2, 257, 2, 120519, 53581, 49267);
    Pocklington(g, 514);
  }

  lemma Prime262139()
    ensures Prime(262139)
  {
    Trial(2473);
    var g := Start(262139, 69441, 2473);
    Next(g, 1, 69441, 2, 18395, 5576); Next(g, 2, 5576, 4, 118, 159374); Next(g, 4, 159374, 9, 6728515753, 165649);
    Next(g, 9, 165649, 19, 7268787370, 204211); Next(g, 19, 204211, 38, 159084, 11845);
    Next(g, 38, 11845, 77, 37166739, 5304); Next(g, 77, 5304, 154, 107, 83543);
    Next(g, 154, 83543, 309, 1848861849, 232398); Next(g, 309, 232398, 618, 206031, 70095);
    Next(g, 618, 70095, 1236, 18743, 37748); Next(g, 1236, 37748, 2473, 377461117, 1);
    Factor(g, 2473, 1, 2473, 1, 69441, 63349, 16781);
    Pocklington(g, 2473);
  }

  lemma Prime262657()
    ensures Prime(262657)
  {
    Trial(2); Trial(19);
    var g := Start(262657, 262229, 608);
    Next(g, 1, 262229, 2, 261801, 183184); Next(g, 2, 183184, 4, 127757, 107507);
    Next(g, 4, 107507, 9, 11538921668, 192345); Next(g, 9, 192345, 19, 36936313007, 247126);
    Next(g, 19, 247126, 38, 232513, 92835); Next(g, 38, 92835, 76, 32812, 35741);
    Next(g, 76, 35741, 152, 4863, 118090); Next(g, 152, 118090, 304, 53092, 262656);
    Next(g, 4, 107507, 8, 44003, 59078); Next(g, 8, 59078, 16, 13288, 23868); Next(g, 16, 23868, 32, 2168, 241048);
    Next(g, 304, 262656, 608, 262655, 1);
    Factor(g, 608, 1, 2, 304, 262656, 131328, 131327); Again(g, 608, 2, 2); Again(g, 608, 4, 2); Again(g, 608, 8, 2);
    Again(g, 608, 16, 2); Factor(g, 608, 32, 19, 32, 241048, 35892, 32939);
    Pocklington(g, 608);
  }

  lemma Powers524287(g: Powers)
    requires g.p == 524287 && g.b == 10394 && |g.ps| == 2774 && g.Is(1, 10394)
    ensures g.Is(73, 256) && g.Is(19, 117005) && g.Is(5, 502784)
  {
    Next(g, 1, 10394, 2, 206, 32114); Next(g, 2, 32114, 4, 1967, 36467); Next(g, 4, 36467, 9, 26364145, 183451);
    Next(g, 9, 183451, 18, 64190, 286871); Next(g, 18, 286871, 36, 156965, 261686);
    Next(g, 36, 261686, 73, 1357608664, 256); Next(g, 9, 183451, 19, 667196547, 117005);
    Next(g, 2, 32114, 5, 20445720, 502784);
  }

  lemma Prime524287()
    ensures Prime(524287)
  {
    Trial(19); Trial(73);
    var g := Start(524287, 10394, 1387);
    Powers524287(g);
    Next(g, 5, 502784, 10, 482162, 482162); Next(g, 10, 482162, 21, 4608924384, 457928);
    Next(g, 21, 457928, 43, 4157267994, 24218); Next(g, 43, 24218, 86, 1118, 358658);
    Next(g, 86, 358658, 173, 2550202504, 445168); Next(g, 173, 445168, 346, 377988, 353668);
    Next(g, 346, 353668, 693, 2479734339, 212963); Next(g, 693, 212963, 1387, 899128855, 1);
    Factor(g, 1387, 1, 19, 73, 256, 374197, 182); Factor(g, 1387, 19, 73, 19, 117005, 130543, 29133);
    Pocklington(g, 1387);
  }

  lemma Prime581029()
    ensures Prime(581029)
  {
    Prime6917();
    var g := Start(581029, 195112, 6917);
    Next(g, 1, 195112, 3, 12783628252, 13620); Next(g, 3, 13620, 6, 319, 156149);
    Next(g, 6, 156149, 13, 8187750233, 207755); Next(g, 13, 207755, 27, 14494029496, 526416);
    Next(g, 27, 526416, 54, 476936, 157912); Next(g, 54, 157912, 108, 42917, 178151);
    Next(g, 108, 178151, 216, 54623, 231734); Next(g, 216, 231734, 432, 92423, 203489);
    Next(g, 432, 203489, 864, 71266, 160407); Next(g, 864, 160407, 1729, 8640379235, 454873);
    Next(g, 1729, 454873, 3458, 356108, 370997); Next(g, 3458, 370997, 6917, 46219683483, 1);
    Factor(g, 6917, 1, 6917, 1, 195112, 528245, 177386);
    Pocklington(g, 6917);
  }

  lemma Powers1048571(g: Powers)
    requires g.p == 1048571 && g.b == 56522 && |g.ps| == 2162 && g.Is(1, 56522)
    ensures g.Is(23, 649940) && g.Is(47, 770651) && g.Is(8, 241241)
  {
    Next(g, 1, 56522, 2, 3046, 789218); Next(g, 2, 789218, 5, 33574816051, 826407);
    Next(g, 5, 826407, 11, 36813546047, 771941); Next(g, 11, 771941, 23, 32120914002, 649940);
    Next(g, 23, 649940, 47, 22770166719, 770651); Next(g, 2, 789218, 4, 594013, 246101);
    Next(g, 4, 246101, 8, 57760, 241241);
  }

  lemma Prime1048571()
    ensures Prime(1048571)
  {
    Trial(23); Trial(47);
    var g := Start(1048571, 56522, 1081);
    Powers1048571(g);
    Next(g, 8, 241241, 16, 55501, 481010); Next(g, 16, 481010, 33, 12471764133, 588257);
    Next(g, 33, 588257, 67, 18653223156, 415502); Next(g, 67, 415502, 135, 9306061440, 87848);
    Next(g, 135, 87848, 270, 7359, 837115); Next(g, 270, 837115, 540, 668301, 475354);
    Next(g, 540, 475354, 1081, 12180187781, 1);
    Factor(g, 1081, 1, 23, 47, 770651, 446041, 327819); Factor(g, 1081, 23, 47, 23, 649940, 391941, 242938);
    Pocklington(g, 1081);
  }

  lemma Powers1048573(g: Powers)
    requires g.p == 1048573 && g.b == 64539 && |g.ps| == 2774 && g.Is(1, 64539)
    ensures g.Is(73, 937692) && g.Is(19, 119273) && g.Is(5, 174703)
  {
    Next(g, 1, 64539, 2, 3972, 350565); Next(g, 2, 350565, 4, 117202, 966479);
    Next(g, 4, 966479, 9, 57492130819, 313412); Next(g, 9, 313412, 18, 93676, 957396);
    Next(g, 18, 957396, 36, 874147, 158585); Next(g, 36, 158585, 73, 1547917371, 937692);
    Next(g, 9, 313412, 19, 6045814291, 119273); Next(g, 2, 350565, 5, 7564159364, 174703);
  }

  lemma Prime1048573()
    ensures Prime(1048573)
  {
    Trial(19); Trial(73);
    var g := Start(1048573, 64539, 1387);
    Powers1048573(g);
    Next(g, 5, 174703, 10, 29107, 323898); Next(g, 10, 323898, 21, 6457138383, 42297);
    Next(g, 21, 42297, 43, 110114038, 724877); Next(g, 43, 724877, 86, 501106, 443391);
    Next(g, 86, 443391, 173, 12100332609, 583902); Next(g, 173, 583902, 346, 325148, 131800);
    Next(g, 346, 131800, 693, 1069188753, 60531); Next(g, 693, 60531, 1387, 225516986, 1);
    Factor(g, 1387, 1, 19, 73, 937692, 367306, 328465); Factor(g, 1387, 19, 73, 19, 119273, 185139, 21059);
    Pocklington(g, 1387);
  }

  lemma Prime2097143()
    ensures Prime(2097143)
  {
    Prime1048571();
    var g := Start(2097143, 4, 1048571);
    Next(g, 1, 4, 3, 0, 64); Next(g, 3, 64, 7, 0, 16384); Next(g, 7, 16384, 15, 512, 4608);
    Next(g, 15, 4608, 31, 40, 1048936); Next(g, 31, 1048936, 63, 2098601, 531441);
    Next(g, 63, 531441, 127, 538693, 1891825); Next(g, 127, 1891825, 255, 6826433, 1141581);
    Next(g, 255, 1141581, 511, 2485681, 208861); Next(g, 511, 208861, 1023, 83204, 983112);
    Next(g, 1023, 983112, 2047, 1843477, 1931965); Next(g, 2047, 1931965, 4095, 7119187, 1862159);
    Next(g, 4095, 1862159, 8191, 6614019, 917407); Next(g, 8191, 917407, 16383, 1605299, 853839);
    Next(g, 16383, 853839, 32767, 1390541, 827321); Next(g, 32767, 827321, 65535, 1305509, 1087377);
    Next(g, 65535, 1087377, 131071, 2255237, 472625); Next(g, 131071, 472625, 262142, 106513, 1398266);
    Next(g, 262142, 1398266, 524285, 3729164, 1048572); Next(g, 524285, 1048572, 1048571, 2097145, 1);
    Factor(g, 1048571, 1, 1048571, 1, 4, 699048, 1);
    Pocklington(g, 1048571);
  }

  lemma Powers4194301(g: Powers)
    requires g.p == 4194301 && g.b == 1602817 && |g.ps| == 4100 && g.Is(1, 1602817)
    ensures g.Is(1025, 4194300)
  {
    Next(g, 1, 1602817, 2, 612503, 390086); Next(g, 2, 390086, 4, 36279, 2041417);
    Next(g, 4, 2041417, 8, 993582, 1391707); Next(g, 8, 1391707, 16, 461780, 4058069);
    Next(g, 16, 4058069, 32, 3926261, 3570200); Next(g, 32, 3570200, 64, 3038963, 2490137);
    Next(g, 64, 2490137, 128, 1478382, 3177787); Next(g, 128, 3177787, 256, 2407631, 1106438);
    Next(g, 256, 1106438, 512, 291873, 1832071); Next(g, 512, 1832071, 1025, 1282652307097, 4194300);
  }

  lemma Prime4194301()
    ensures Prime(4194301)
  {
    Trial(2); Trial(5); Trial(41);
    var g := Start(4194301, 1602817, 2050);
    Powers4194301(g);
    Next(g, 1, 1602817, 3, 981730370019, 410794); Next(g, 3, 410794, 6, 40233, 2398303);
    Next(g, 6, 2398303, 12, 1371350, 2603459); Next(g, 12, 2603459, 25, 2590155462378, 2198599);
    Next(g, 25, 2198599, 51, 1847210541374, 500843); Next(g, 51, 500843, 102, 59805, 3539344);
    Next(g, 102, 3539344, 205, 4787071303525, 3485487); Next(g, 205, 3485487, 410, 2896458, 2941311);
    Next(g, 25, 2198599, 50, 1152477, 2129224); Next(g, 1025, 4194300, 2050, 4194299, 1);
    Factor(g, 2050, 1, 2, 1025, 4194300, 2097150, 2097149); Factor(g, 2050, 2, 5, 410, 2941311, 1267796, 889059);
    Again(g, 2050, 10, 5); Factor(g, 2050, 50, 41, 50, 2129224, 918241, 466142);
    Pocklington(g, 2050);
  }

  lemma Prime8388593()
    ensures Prime(8388593)
  {
    Prime524287();
    var g := Start(8388593, 65536, 524287);
    Next(g, 1, 65536, 3, 33554492, 900); Next(g, 3, 900, 7, 6328, 1143496);
    Next(g, 7, 1143496, 15, 10215511251, 2160733); Next(g, 15, 2160733, 31, 36474808169, 5115687);
    Next(g, 31, 5115687, 63, 204455470922, 6327638); Next(g, 63, 6327638, 127, 312805267613, 1569075);
    Next(g, 127, 1569075, 255, 19234380922, 617254); Next(g, 255, 617254, 511, 2976587357, 6997875);
    Next(g, 511, 6997875, 1023, 382580797511, 807977); Next(g, 1023, 807977, 2047, 5100218749, 290387);
    Next(g, 2047, 290387, 4095, 658787191, 6908921); Next(g, 4095, 6908921, 8191, 372916208890, 4426406);
    Next(g, 8191, 4426406, 16383, 153071133687, 6691705); Next(g, 16383, 6691705, 32767, 349835905297, 6113279);
    Next(g, 32767, 6113279, 65535, 291970679364, 2236924); Next(g, 65535, 2236924, 131071, 39092483822, 7829490);
    Next(g, 131071, 7829490, 262143, 478914244334, 7831538); Next(g, 262143, 7831538, 524287, 479164821231, 1);
    Factor(g, 524287, 1, 524287, 1, 65536, 3340589, 26098);
    Pocklington(g, 524287);
  }

  lemma Powers16777213(g: Powers)
    requires g.p == 16777213 && g.b == 7680433 && |g.ps| == 8196 && g.Is(1, 7680433)
    ensures g.Is(2, 1060803) && g.Is(2049, 16777212)
  {
    Next(g, 1, 7680433, 2, 3516022, 1060803); Next(g, 2, 1060803, 4, 67073, 4997260);
    Next(g, 4, 4997260, 8, 1488483, 11169721); Next(g, 8, 11169721, 16, 7436435, 13262186);
    Next(g, 16, 13262186, 32, 10483599, 4069009); Next(g, 32, 4069009, 64, 986864, 6712049);
    Next(g, 64, 6712049, 128, 2685285, 3367696); Next(g, 128, 3367696, 256, 675998, 13914842);
    Next(g, 256, 13914842, 512, 11540821, 15773091); Next(g, 512, 15773091, 1024, 14829066, 821223);
    Next(g, 1024, 821223, 2049, 308736584265, 16777212);
  }

  lemma Prime16777213()
    ensures Prime(16777213)
  {
    Trial(2); Trial(3); Trial(683);
    var g := Start(16777213, 7680433, 4098);
    Powers16777213(g);
    Next(g, 2, 1060803, 5, 515151970302, 7873971); Next(g, 5, 7873971, 10, 3695454, 419139);
    Next(g, 10, 419139, 21, 80423326478, 13406179); Next(g, 21, 13406179, 42, 10712484, 9552949);
    Next(g, 42, 9552949, 85, 41777341968375, 9369358); Next(g, 85, 9369358, 170, 5232386, 14911946);
    Next(g, 170, 14911946, 341, 101796894983029, 14456451); Next(g, 341, 14456451, 683, 95672971677994, 5097911);
    Next(g, 683, 5097911, 1366, 1549047, 5097910); Next(g, 1, 7680433, 3, 27004571883150, 9081787);
    Next(g, 3, 9081787, 6, 4916123, 12408170); Next(g, 2049, 16777212, 4098, 16777211, 1);
    Factor(g, 4098, 1, 2, 2049, 16777212, 8388606, 8388605); Factor(g, 4098, 2, 3, 1366, 5097910, 15077909, 4581560);
    Factor(g, 4098, 6, 683, 6, 12408170, 8664101, 6407836);
    Pocklington(g, 4098);
  }

  lemma Powers22605091(g: Powers)
    requires g.p == 22605091 && g.b == 18389778 && |g.ps| == 65522 && g.Is(1, 18389778)
    ensures g.Is(181, 13954217) && g.Is(15, 10446987)
  {
    Next(g, 1, 18389778, 2, 14960520, 18881964); Next(g, 2, 18881964, 5, 290044448472423, 22134795);
    Next(g, 5, 22134795, 11, 398585260909814, 19857376); Next(g, 11, 19857376, 22, 17443653, 18167953);
    Next(g, 22, 18167953, 45, 268523452374650, 15500452); Next(g, 45, 15500452, 90, 10628756, 15607508);
    Next(g, 90, 15607508, 181, 198169748967325, 13954217); Next(g, 1, 18389778, 3, 275120656925485, 18694817);
    Next(g, 3, 18694817, 7, 284323438955809, 3991823); Next(g, 7, 3991823, 15, 12963216643725, 10446987);
  }

  lemma Prime22605091()
    ensures Prime(22605091)
  {
    Trial(181);
    var g := Start(22605091, 18389778, 32761);
    Powers22605091(g);
    Next(g, 15, 10446987, 31, 88787603792757, 12830595); Next(g, 31, 12830595, 63, 133925667627182, 8572888);
    Next(g, 63, 8572888, 127, 59789445638979, 8077143); Next(g, 127, 8077143, 255, 53074482763974, 5894688);
    Next(g, 255, 5894688, 511, 28267791108737, 16329565); Next(g, 511, 16329565, 1023, 216929921165501, 5776459);
    Next(g, 1023, 5776459, 2047, 27145235711800, 10349018); Next(g, 2047, 10349018, 4095, 87130159978802, 9799090);
    Next(g, 4095, 9799090, 8190, 4247811, 10622299); Next(g, 8190, 10622299, 16380, 4991496, 14739265);
    Next(g, 16380, 14739265, 32761, 176734722036539, 1);
    Factor(g, 32761, 1, 181, 181, 13954217, 19569746, 12080485); Again(g, 32761, 181, 181);
    Pocklington(g, 32761);
  }

  lemma Prime33554393()
    ensures Prime(33554393)
  {
    Trial(2); Trial(2371);
    var g := Start(33554393, 15715079, 9484);
    Next(g, 1, 15715079, 2, 7360100, 20056941); Next(g, 2, 20056941, 4, 11988918, 16060707);
    Next(g, 4, 16060707, 9, 120808224098530, 18540781); Next(g, 9, 18540781, 18, 10244874, 31658479);
    Next(g, 18, 31658479, 37, 469404526602225, 27872414); Next(g, 37, 27872414, 74, 23152600, 22815596);
    Next(g, 74, 22815596, 148, 15513659, 9881229); Next(g, 148, 9881229, 296, 2909862, 33426675);
    Next(g, 296, 33426675, 592, 33299443, 4452526); Next(g, 592, 4452526, 1185, 9284961559202, 1339018);
    Next(g, 1185, 1339018, 2371, 839730663299, 33479089); Next(g, 2371, 33479089, 4742, 33403953, 33554392);
    Next(g, 4742, 33554392, 9484, 33554391, 1);
    Factor(g, 9484, 1, 2, 4742, 33554392, 16777196, 16777195); Again(g, 9484, 2, 2);
    Factor(g, 9484, 4, 2371, 4, 16060707, 7698763, 3684989);
    Pocklington(g, 9484);
  }

  lemma Prime67108859()
    ensures Prime(67108859)
  {
    Prime70051();
    var g := Start(67108859, 51047135, 70051);
    Next(g, 1, 51047135, 2, 38829597, 41608402); Next(g, 2, 41608402, 4, 25797773, 6222597);
    Next(g, 4, 6222597, 8, 576983, 42632012); Next(g, 8, 42632012, 17, 1382493749797364, 35219764);
    Next(g, 17, 35219764, 34, 18483875, 15067071); Next(g, 34, 15067071, 68, 3382811, 42096392);
    Next(g, 68, 42096392, 136, 26406442, 26547986); Next(g, 136, 26547986, 273, 536110949706618, 7069598);
    Next(g, 273, 7069598, 547, 38017272507976, 45645156); Next(g, 547, 45645156, 1094, 31046277, 40596393);
    Next(g, 1094, 40596393, 2189, 1253621448087076, 9507331); Next(g, 2189, 9507331, 4378, 1346906, 17903307);
    Next(g, 4378, 17903307, 8756, 4776245, 49281794); Next(g, 8756, 49281794, 17512, 36190381, 44173157);
    Next(g, 17512, 44173157, 35025, 1484254571731003, 37045038); Next(g, 35025, 37045038, 70051, 1043882475549121, 1);
    Factor(g, 70051, 1, 70051, 1, 51047135, 48625567, 36987603);
    Pocklington(g, 70051);
  }

  lemma Prime134217689()
    ensures Prime(134217689)
  {
    Prime15101();
    var g := Start(134217689, 112768753, 15101);
    Next(g, 1, 112768753, 3, 10684558403396099, 96298566); Next(g, 3, 96298566, 7, 7791456697030460, 132837128);
    Next(g, 7, 132837128, 14, 131470767, 57490921); Next(g, 14, 57490921, 29, 2777010701906094, 112856707);
    Next(g, 29, 112856707, 58, 94895362, 130425431); Next(g, 58, 130425431, 117, 14292348007591998, 76423411);
    Next(g, 117, 76423411, 235, 4907178507521851, 35921174); Next(g, 235, 35921174, 471, 1084126762761029, 114647847);
    Next(g, 471, 114647847, 943, 11043604069940895, 75383322);
    Next(g, 943, 75383322, 1887, 4774518334744681, 8479843); Next(g, 1887, 8479843, 3775, 60416372292752, 43942569);
    Next(g, 3775, 43942569, 7550, 14386698, 12418839); Next(g, 7550, 12418839, 15101, 129580906859008, 1);
    Factor(g, 15101, 1, 15101, 1, 112768753, 115029190, 96646711);
    Pocklington(g, 15101);
  }

  lemma Prime268435399()
    ensures Prime(268435399)
  {
    Prime581029();
    var g := Start(268435399, 79975169, 581029);
    Next(g, 1, 79975169, 2, 23827064, 224740025); Next(g, 2, 224740025, 4, 188157296, 10479521);
    Next(g, 4, 10479521, 8, 409112, 217433753); Next(g, 8, 217433753, 17, 14085403875725245, 18213766);
    Next(g, 17, 18213766, 35, 98835937374630, 46138394); Next(g, 35, 46138394, 70, 7930218, 167912254);
    Next(g, 70, 167912254, 141, 8400016963550658, 258084662);
    Next(g, 141, 258084662, 283, 19844482154730362, 84582798);
    Next(g, 283, 84582798, 567, 2131471230536062, 72029138); Next(g, 567, 72029138, 1134, 19327543, 4128387);
    Next(g, 1134, 4128387, 2269, 5077806927490, 122035451);
    Next(g, 2269, 122035451, 4539, 4436979284678555, 77511324); Next(g, 4539, 77511324, 9078, 22381568, 211907344);
    Next(g, 9078, 211907344, 18157, 13378499182694645, 147564429);
    Next(g, 18157, 147564429, 36314, 81119184, 182501625); Next(g, 36314, 182501625, 72628, 124077685, 247669310);
    Next(g, 72628, 247669310, 145257, 18275100273071338, 109067038);
    Next(g, 145257, 109067038, 290514, 44314642, 171281286); Next(g, 290514, 171281286, 581029, 8740478526574277, 1);
    Factor(g, 581029, 1, 581029, 1, 79975169, 79985965, 23830281);
    Pocklington(g, 581029);
  }

  lemma Prime536870909()
    ensures Prime(536870909)
  {
    Prime262657();
    var g := Start(536870909, 62781759, 262657);
    Next(g, 1, 62781759, 2, 7341707, 352432418); Next(g, 2, 352432418, 4, 231356564, 439530048);
    Next(g, 4, 439530048, 8, 359838202, 494216686); Next(g, 8, 494216686, 16, 454951327, 243576353);
    Next(g, 16, 243576353, 32, 110509693, 406559672); Next(g, 32, 406559672, 64, 307878046, 479583770);
    Next(g, 64, 479583770, 128, 428409490, 126886490); Next(g, 128, 126886490, 256, 29988924, 456708184);
    Next(g, 256, 456708184, 513, 24391650902358462, 66346746); Next(g, 513, 66346746, 1026, 8199160, 222552076);
    Next(g, 1026, 222552076, 2052, 92255746, 316416662); Next(g, 2052, 316416662, 4104, 186487109, 265610163);
    Next(g, 4104, 265610163, 8208, 131407303, 478038142); Next(g, 8208, 478038142, 16416, 425652538, 212595122);
    Next(g, 16416, 212595122, 32832, 84185388, 118117192); Next(g, 32832, 118117192, 65664, 25987012, 291330956);
    Next(g, 65664, 291330956, 131328, 158089634, 414816630); Next(g, 131328, 414816630, 262657, 20122221509921911, 1);
    Factor(g, 262657, 1, 262657, 1, 62781759, 292186085, 34168281);
    Pocklington(g, 262657);
  }

  lemma Powers1073741789(g: Powers)
    requires g.p == 1073741789 && g.b == 128634788 && |g.ps| == 131048 && g.Is(1, 128634788)
    ensures g.Is(511, 459552900)
  {
    Next(g, 1, 128634788, 3, 1982327699640837, 1026954479); Next(g, 3, 1026954479, 7, 126345845527195911, 442184729);
    Next(g, 7, 442184729, 15, 23424269677403813, 696664051); Next(g, 15, 696664051, 31, 58144063637683207, 745310265);
    Next(g, 31, 745310265, 63, 66547659339232532, 849707552);
    Next(g, 63, 849707552, 127, 86496301071671913, 516834395);
    Next(g, 127, 516834395, 255, 32000841243497614, 438886254);
    Next(g, 255, 438886254, 511, 23076106630274172, 459552900);
  }

  lemma Prime1073741789()
    ensures Prime(1073741789)
  {
    Trial(2); Prime16381();
    var g := Start(1073741789, 128634788, 65524);
    Powers1073741789(g);
    Next(g, 511, 459552900, 1023, 25300528980410183, 38842613);
    Next(g, 1023, 38842613, 2047, 180748813469192, 1001283484);
    Next(g, 2047, 1001283484, 4095, 120108207214965407, 1065476605);
    Next(g, 4095, 1065476605, 8190, 1057275042, 740195887);
    Next(g, 8190, 740195887, 16381, 65637482338091943, 933053945);
    Next(g, 16381, 933053945, 32762, 810799833, 1073741788); Next(g, 1, 128634788, 2, 15410510, 107002554);
    Next(g, 2, 107002554, 4, 10663221, 569480547); Next(g, 32762, 1073741788, 65524, 1073741787, 1);
    Factor(g, 65524, 1, 2, 32762, 1073741788, 536870894, 536870893); Again(g, 65524, 2, 2);
    Factor(g, 65524, 4, 16381, 4, 569480547, 113594666, 60247215);
    Pocklington(g, 65524);
  }

  lemma Powers2147483647(g: Powers)
    requires g.p == 2147483647 && g.b == 1415456845 && |g.ps| == 99962 && g.Is(1, 1415456845)
    ensures g.Is(331, 556613938) && g.Is(151, 272122089)
  {
    Next(g, 1, 1415456845, 2, 932960808, 1585447249); Next(g, 2, 1585447249, 5, 1656801049914428849, 60384542);
    Next(g, 5, 60384542, 10, 1697937, 971413525); Next(g, 10, 971413525, 20, 439418590, 340127895);
    Next(g, 20, 340127895, 41, 76252005440758143, 1523528604); Next(g, 41, 1523528604, 82, 1080864764, 1897674508);
    Next(g, 82, 1897674508, 165, 2373614655773832834, 735062482);
    Next(g, 165, 735062482, 331, 356135511592426686, 556613938); Next(g, 2, 1585447249, 4, 1170506226, 314981779);
    Next(g, 4, 314981779, 9, 65393958997809632, 1877498741); Next(g, 9, 1877498741, 18, 1641456747, 1016268772);
    Next(g, 18, 1016268772, 37, 680744167502514184, 1073001432);
    Next(g, 37, 1073001432, 75, 758869976019288936, 989291688);
    Next(g, 75, 989291688, 151, 645082837965526953, 272122089);
  }

  lemma Prime2147483647()
    ensures Prime(2147483647)
  {
    Trial(151); Trial(331);
    var g := Start(2147483647, 1415456845, 49981);
    Powers2147483647(g);
    Next(g, 1, 1415456845, 3, 1320565762845336231, 985436668); Next(g, 3, 985436668, 6, 452196890, 139684394);
    Next(g, 6, 139684394, 12, 9085857, 600666757); Next(g, 12, 600666757, 24, 168010850, 71327099);
    Next(g, 24, 71327099, 48, 2369077, 935771982); Next(g, 48, 935771982, 97, 577174111699234648, 755976524);
    Next(g, 97, 755976524, 195, 376689388357187184, 1435252672); Next(g, 195, 1435252672, 390, 959239077, 1062265765);
    Next(g, 390, 1062265765, 780, 525456180, 1725946765);
    Next(g, 780, 1725946765, 1561, 1963457748005444930, 1184155415);
    Next(g, 1561, 1184155415, 3123, 924238761093184017, 20110126);
    Next(g, 3123, 20110126, 6247, 266560841618953, 263509629);
    Next(g, 6247, 263509629, 12495, 45767769410719175, 918871420);
    Next(g, 12495, 918871420, 24990, 393169320, 1290706360);
    Next(g, 24990, 1290706360, 49981, 1098048865845070017, 1);
    Factor(g, 49981, 1, 151, 331, 556613938, 2069584139, 536422886);
    Factor(g, 49981, 151, 331, 151, 272122089, 411595504, 52156033);
    Pocklington(g, 49981);
  }

  lemma Powers4294967291(g: Powers)
    requires g.p == 4294967291 && g.b == 1073745729 && |g.ps| == 45210182 && g.Is(1, 1073745729)
    ensures g.Is(5518, 1810740027)
  {
    Next(g, 1, 1073745729, 2, 268437408, 3504919713); Next(g, 2, 3504919713, 5, 3071126721297293695, 2762101756);
    Next(g, 5, 2762101756, 10, 1776312971, 1474251975); Next(g, 10, 1474251975, 21, 543356698160813817, 4065820878);
    Next(g, 21, 4065820878, 43, 4132739887760620961, 1820247785); Next(g, 43, 1820247785, 86, 771438237, 3855700258);
    Next(g, 86, 3855700258, 172, 3461359184, 1858816020); Next(g, 172, 1858816020, 344, 804475741, 2210652769);
    Next(g, 344, 2210652769, 689, 1221750860959417051, 3255072328);
    Next(g, 689, 3255072328, 1379, 2648883601675193906, 2036108090);
    Next(g, 1379, 2036108090, 2759, 1036437809065933574, 2579436866);
    Next(g, 2759, 2579436866, 5518, 1549137419, 1810740027);
  }

  lemma Prime4294967291()
    ensures Prime(4294967291)
  {
    Prime22605091();
    var g := Start(4294967291, 1073745729, 22605091);
    Powers4294967291(g);
    Next(g, 5518, 1810740027, 11037, 819697843377527508, 3638735613);
    Next(g, 11037, 3638735613, 22075, 3310111257399430197, 2142344274);
    Next(g, 22075, 2142344274, 44150, 1068608601, 164317185);
    Next(g, 44150, 164317185, 88301, 6750058878062893, 3827152162);
    Next(g, 88301, 3827152162, 176602, 3410292251, 305512203);
    Next(g, 176602, 305512203, 353204, 21731878, 999910711);
    Next(g, 353204, 999910711, 706409, 249956266825425717, 3852027162);
    Next(g, 706409, 3852027162, 1412818, 3454767464, 894754220);
    Next(g, 1412818, 894754220, 2825636, 186400747, 2824842023);
    Next(g, 2825636, 2824842023, 5651272, 1857926245, 3541280234);
    Next(g, 5651272, 3541280234, 11302545, 3135177829598793928, 4191888076);
    Next(g, 11302545, 4191888076, 22605091, 4392997392001035133, 1);
    Factor(g, 22605091, 1, 22605091, 1, 1073745729, 1771216906, 442805837);
    Pocklington(g, 22605091);
  }

  lemma SmallSizes(i: nat)
    requires i < 10
    ensures Prime(PRIME_TAB[i].prime)
  {
    Trial(7); Trial(13); Trial(31); Trial(61); Trial(127); Trial(251); Trial(509); Trial(1021); Trial(2039);
    Trial(4093);
  }

  lemma MiddleSizes(i: nat)
    requires 10 <= i < 20
    ensures Prime(PRIME_TAB[i].prime)
  {
    Prime8191(); Prime16381(); Prime32749(); Prime65521(); Prime131071(); Prime262139(); Prime524287();
    Prime1048573(); Prime2097143(); Prime4194301();
  }

  lemma LargeSizes(i: nat)
    requires 20 <= i < 30
    ensures Prime(PRIME_TAB[i].prime)
  {
    Prime8388593(); Prime16777213(); Prime33554393(); Prime67108859(); Prime134217689(); Prime268435399();
    Prime536870909(); Prime1073741789(); Prime2147483647(); Prime4294967291();
  }

  /** Every size of the table is prime. */
  lemma SizesPrime(i: nat)
    requires i < 30
    ensures Prime(PRIME_TAB[i].prime)
  {
    if i < 10 { SmallSizes(i); } else if i < 20 { MiddleSizes(i); } else { LargeSizes(i); }
  }
}
